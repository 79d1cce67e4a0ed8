/** The document as the router works on it: an object whose map and order are changed in place. */
module TileDocObject {
  import opened Sequences
  import opened Wrappers
  import opened TileDocs
  import opened TileTrees

  datatype Refusal = NotFound | NotRootable | IsRoot

  class TileDoc {
    var rootId: string
    var order: seq<string>
    var tiles: map<string, Tile>

    /** `mustParseDoc`. */
    constructor (d: Doc)
      ensures Now() == d
    {
      rootId, order, tiles := d.root, d.order, d.tiles;
    }

    function Now(): Doc
      reads this
    {
      Doc(rootId, order, tiles)
    }

    method Validate() returns (ok: bool)
      ensures ok <==> Valid(Now())
    {
      ValidParts(Now());
      hide Valid, Sound, Climbs, Rooted, NoDup;
      if rootId !in tiles || tiles[rootId].parent.Some? || !CanRoot(tiles[rootId].kind) {
        return false;
      }
      ok := OrderFits();
      if !ok {
        return;
      }
      ok := TilesFit();
      if !ok {
        return;
      }
      ok := ChainsFit();
    }

    method OrderFits() returns (ok: bool)
      requires rootId in tiles
      ensures ok <==> OrderOk(Now())
    {
      if |order| != |tiles| || order[0] != rootId {
        if OrderOk(Now()) { ListsSize(order, tiles.Keys); }
        return false;
      }
      var seen: set<string> := {};
      for i := 0 to |order|
        invariant forall k :: k in seen <==> k in order[..i]
        invariant NoDup(order[..i]) && forall k :: k in order[..i] ==> k in tiles
      {
        assert order[..i + 1] == order[..i] + [order[i]];
        if order[i] !in tiles || order[i] in seen {
          assert order[i] in order;
          if order[i] in seen {
            var j :| 0 <= j < i && order[..i][j] == order[i];
            assert order[j] == order[i];
          }
          return false;
        }
        seen := seen + {order[i]};
      }
      assert order[..|order|] == order;
      ListsBySize(order, tiles.Keys);
      return true;
    }

    method TilesFit() returns (ok: bool)
      ensures ok <==> TilesOk(Now())
    {
      hide Sound, ParentOk;
      var left := tiles.Keys;
      while left != {}
        invariant left <= tiles.Keys
        invariant forall k {:trigger tiles[k]} :: k in tiles && k !in left ==>
                    tiles[k].id == k && Sound(tiles[k]) && ParentOk(Now(), k)
        decreases |left|
      {
        var key :| key in left;
        left := left - {key};
        var fits := TileFits(key);
        if !fits {
          return false;
        }
      }
      return true;
    }

    /** The checks of one tile. */
    method TileFits(key: string) returns (ok: bool)
      requires key in tiles
      ensures ok <==> tiles[key].id == key && Sound(tiles[key]) && ParentOk(Now(), key)
    {
      var t := tiles[key];
      if t.id == "" || t.id != key || !ValidSpan(t.w) || !ValidSpan(t.h) {
        return false;
      }
      if t.kind.Unknown? || (!HoldsProc(t.kind) && (t.minimized || t.shortcutsOff))
        || |t.back| + |t.fwd| > HISTORY_MAX || !FieldsOk(t)
      {
        return false;
      }
      match t.parent
      case None =>
        return key == rootId;
      case Some(p) =>
        return p in tiles && CanParent(tiles[p].kind);
    }

    /** The walk up from every tile, given up after as many steps as there are tiles. */
    method ChainsFit() returns (ok: bool)
      requires RootOk(Now()) && TilesOk(Now())
      ensures ok <==> AllRooted(Now())
    {
      hide Sound, OrderOk;
      var left := tiles.Keys;
      while left != {}
        invariant left <= tiles.Keys
        invariant forall k :: k in tiles && k !in left ==> Rooted(Now(), k)
        decreases |left|
      {
        var key :| key in left;
        left := left - {key};
        var up := ReachesRoot(key);
        if !up {
          return false;
        }
      }
      return true;
    }

    method ReachesRoot(key: string) returns (up: bool)
      requires RootOk(Now()) && TilesOk(Now()) && key in tiles
      ensures up <==> Rooted(Now(), key)
    {
      hide TilesOk, Climbs;
      var cur, n := key, 0;
      while cur != rootId
        invariant cur in tiles && 0 <= n <= |tiles|
        invariant forall m: nat :: Climbs(Now(), cur, m) <==> Climbs(Now(), key, n + m)
        invariant forall m: nat :: m < n ==> !Climbs(Now(), key, m)
        decreases |tiles| - n
      {
        if n >= |tiles| {
          if Rooted(Now(), key) {
            var m := DepthOf(Now(), key);
            var on := ChainIsShort(Now(), key, m);
          }
          return false;
        }
        ClimbStep(cur);
        ghost var was := cur;
        cur := tiles[cur].parent.value;
        assert forall m: nat :: Climbs(Now(), cur, m) <==> Climbs(Now(), was, m + 1);
        n := n + 1;
      }
      ClimbEnd();
      assert Climbs(Now(), key, n + 0);
      return true;
    }

    lemma ClimbStep(k: string)
      requires RootOk(Now()) && TilesOk(Now()) && k in tiles && k != rootId
      ensures tiles[k].parent.Some? && tiles[k].parent.value in tiles
      ensures !Climbs(Now(), k, 0)
      ensures forall m: nat :: Climbs(Now(), tiles[k].parent.value, m) <==> Climbs(Now(), k, m + 1)
    {
      hide Sound;
      assert ParentOk(Now(), k);
    }

    lemma ClimbEnd()
      requires rootId in tiles
      ensures Climbs(Now(), rootId, 0)
    {
    }

    method OpenTile(opener: string, t: Tile) returns (r: Tile)
      modifies this`order, this`tiles
      ensures Now() == Open(old(Now()), opener, t) && r == t.(parent := Some(Opener(old(Now()), opener)))
    {
      var p := opener;
      if p !in tiles || !CanParent(tiles[p].kind) {
        p := rootId;
      }
      r := t.(parent := Some(p));
      order := Insert(order, IndexOf(order, p) + 1, [t.id]);
      tiles := tiles[t.id := r];
    }

    method RemoveTile(id: string)
      requires id in tiles
      modifies this`order, this`tiles
      ensures Now() == Remove(old(Now()), id)
    {
      var up := tiles[id].parent;
      Lift(id, up);
      hide Pick, Lifted;
      order := Pick(order, {id}, false);
      tiles := tiles - {id};
      assert tiles == Remove(old(Now()), id).tiles;
    }

    /** The loop of `remove`. */
    method Lift(id: string, up: Option<string>)
      modifies this`tiles
      ensures tiles.Keys == old(tiles.Keys)
      ensures forall k :: k in old(tiles) ==> tiles[k] == Lifted(old(tiles)[k], id, up)
    {
      hide Lifted;
      ghost var was := tiles;
      var left := tiles.Keys;
      while left != {}
        invariant left <= tiles.Keys == was.Keys
        invariant forall k :: k in was && k in left ==> tiles[k] == was[k]
        invariant forall k :: k in was && k !in left ==> tiles[k] == Lifted(was[k], id, up)
        decreases |left|
      {
        var key :| key in left;
        left := left - {key};
        LiftedIs(tiles[key], id, up);
        if tiles[key].parent == Some(id) {
          tiles := tiles[key := tiles[key].(parent := up)];
        }
      }
    }

    /** The loop of `purgeTiles` over one document, which changes while it is walked. */
    method RemoveProcs(uids: set<string>) returns (removed: bool)
      requires Valid(Now())
      modifies this`order, this`tiles
      ensures Now() == Without(old(Now()), ProcTiles(old(Now()), uids))
      ensures removed <==> ProcTiles(old(Now()), uids) != {}
    {
      ghost var d := Now();
      removed := false;
      var left := tiles.Keys;
      AllLeft(uids);
      NowTiles();
      hide *;
      while left != {}
        invariant left <= d.tiles.Keys
        invariant Now() == Without(d, Behind(d, uids, left)) && (removed <==> Behind(d, uids, left) != {})
        decreases |left|
      {
        var key :| key in left;
        OneBehind(d, uids, left, key);
        left := left - {key};
        removed := RemoveIf(key, uids, removed, d, Behind(d, uids, left + {key}));
      }
      NoneLeft(d, uids);
    }

    lemma AllLeft(uids: set<string>)
      ensures Behind(Now(), uids, tiles.Keys) == {} && Now() == Without(Now(), {})
    {
      WithoutNone(Now());
    }

    /** One turn of it. */
    method RemoveIf(key: string, uids: set<string>, removed0: bool, ghost d: Doc, ghost gone: set<string>)
      returns (removed: bool)
      requires Valid(d) && key in d.tiles && key !in gone && Now() == Without(d, gone) && gone <= ProcTiles(d, uids)
      modifies this`order, this`tiles
      ensures Now() == Without(d, gone + if key in ProcTiles(d, uids) then {key} else {})
      ensures removed <==> removed0 || key in ProcTiles(d, uids)
    {
      hide *;
      removed := removed0;
      WithoutIs(d, gone);
      NowTiles();
      InProcTiles(d, uids, key);
      assert gone + {} == gone;
      var t := tiles[key];
      if HoldsProc(t.kind) && t.uid in uids {
        ProcsAreLeaves(d, uids);
        FewerLeaves(d, ProcTiles(d, uids), gone + {key});
        RemoveLeaf(key, d, gone);
        removed := true;
      }
    }

    lemma NowTiles()
      ensures Now().tiles == tiles
    {
    }

    method RemoveLeaf(key: string, ghost d: Doc, ghost gone: set<string>)
      requires Valid(d) && Leaves(d, gone + {key}) && key !in gone && Now() == Without(d, gone)
      modifies this`order, this`tiles
      ensures Now() == Without(d, gone + {key})
    {
      hide Valid, Without, Leaves, Remove;
      RemoveNext(d, gone, key);
      RemoveTile(key);
    }

    // ---- subtree ----

    /** `ids` lists, each once, the tiles opened by `k`. */
    ghost predicate Children(k: string, ids: seq<string>)
      reads this
    {
      Lists(ids, OpenedBut(k, {}))
    }

    /** The tiles opened by `k`, those in `left` not counted. */
    function OpenedBut(k: string, left: set<string>): set<string>
      reads this
    {
      set x | x in tiles && x !in left && tiles[x].parent == Some(k)
    }

    function At(kids: map<string, seq<string>>, k: string): seq<string> { if k in kids then kids[k] else [] }

    method OpenedBy() returns (kids: map<string, seq<string>>)
      ensures forall k :: Children(k, At(kids, k))
    {
      kids := map[];
      var left := tiles.Keys;
      while left != {}
        invariant left <= tiles.Keys
        invariant forall k :: Lists(At(kids, k), OpenedBut(k, left))
        decreases |left|
      {
        var key :| key in left;
        ghost var was, before := left, kids;
        left := left - {key};
        if tiles[key].parent.Some? {
          var p := tiles[key].parent.value;
          kids := kids[p := At(kids, p) + [key]];
          AppendLists(At(before, p), OpenedBut(p, was), key);
        }
        forall k ensures Lists(At(kids, k), OpenedBut(k, left)) {
          if tiles[key].parent == Some(k) {
            assert OpenedBut(k, left) == OpenedBut(k, was) + {key};
          } else {
            assert At(kids, k) == At(before, k);
            assert OpenedBut(k, left) == OpenedBut(k, was);
          }
        }
      }
    }

    /** What holds while the stack is worked off: only tiles under `id` are met, each met tile but
        the first was opened by one done, and what a done tile opened is done or waiting. */
    ghost predicate Walk(id: string, done: set<string>, stack: seq<string>)
      reads this
    {
      && NoDup(stack) && NoneDone(done, stack) && AllInside(Now(), id, done, stack)
      && OpenedFrom(Now(), id, done, stack) && OpensInto(Now(), done, stack) && (id in done || id in stack)
    }

    /** `subtree`: the stack is worked off; on a valid document each tile is met once, so the loop
        ends, and what is met are the tiles whose chain of openers goes through `id`. */
    method Subtree(id: string) returns (ids: seq<string>)
      requires Valid(Now())
      ensures ids == TileDocs.Subtree(Now(), id)
    {
      hide Valid, TileDocs.Subtree, Children, Pick, Walk;
      var kids := OpenedBy();
      var done: set<string> := {};
      var stack := [id];
      WalkStart(id);
      while stack != []
        invariant Walk(id, done, stack)
        decreases |tiles.Keys + {id} - done|
      {
        var k := stack[|stack| - 1];
        WalkStep(id, done, stack, At(kids, k));
        assert tiles.Keys + {id} - (done + {k}) == (tiles.Keys + {id} - done) - {k};
        stack := stack[..|stack| - 1] + At(kids, k);
        done := done + {k};
      }
      WalkDone(id, done);
      ids := Pick(order, done, true);
    }

    lemma WalkStart(id: string)
      ensures Walk(id, {}, [id])
    {
      assert Passes(Now(), id, id, 0);
    }

    lemma WalkStep(id: string, done: set<string>, stack: seq<string>, more: seq<string>)
      requires Valid(Now()) && stack != [] && Walk(id, done, stack) && Children(stack[|stack| - 1], more)
      ensures Walk(id, done + {stack[|stack| - 1]}, stack[..|stack| - 1] + more)
      ensures stack[|stack| - 1] !in done && stack[|stack| - 1] in tiles.Keys + {id}
    {
      StackedNext(id, done, stack, more);
      hide Valid, Inside, NoneDone, AllInside, OpenedFrom, OpensInto;
      forall x | x in more ensures NextOf(Now(), id, stack[|stack| - 1], x) {
        OpenedByTop(id, done, stack, more, x);
      }
      var d, k := Now(), stack[|stack| - 1];
      TopIsInside(d, id, done, stack);
      StillApart(d, id, done, stack, more);
      StillInside(d, id, done, stack, more);
      StillOpened(d, id, done, stack, more);
      forall x | x in d.tiles && d.tiles[x].parent == Some(k) ensures x in more {
      }
      StillOpening(d, done, stack, more);
      IdStays(id, done, stack, more);
    }

    lemma OpenedByTop(id: string, done: set<string>, stack: seq<string>, more: seq<string>, x: string)
      requires Valid(Now()) && stack != [] && Walk(id, done, stack) && Children(stack[|stack| - 1], more) && x in more
      ensures x in tiles && tiles[x].parent == Some(stack[|stack| - 1]) && Inside(Now(), x, id) && x != id
    {
      hide Valid, Inside;
      var k := stack[|stack| - 1];
      assert x in tiles && tiles[x].parent == Some(k) && k in stack;
      InsideStep(Now(), x, id);
      if x == id {
        NotUnderItself(id, k);
      }
    }

    /** The lists stay apart. */
    lemma StackedNext(id: string, done: set<string>, stack: seq<string>, more: seq<string>)
      requires Valid(Now()) && stack != [] && Walk(id, done, stack) && Children(stack[|stack| - 1], more)
      ensures NoDup(stack[..|stack| - 1] + more)
      ensures forall x :: x in more ==> x !in stack && x !in done
    {
      var k := stack[|stack| - 1];
      forall x | x in more ensures x !in stack && x !in done {
        OpenedByTop(id, done, stack, more, x);
        OnTop(stack);
      }
      assert NoDup(stack) && NoDup(more);
      hide Valid, Inside, Walk;
      JoinedLists(stack[..|stack| - 1], more);
      OnTop(stack);
    }

    /** The opener of `id` is not under `id`. */
    lemma NotUnderItself(id: string, k: string)
      requires Valid(Now()) && id in tiles && tiles[id].parent == Some(k)
      ensures !Inside(Now(), k, id)
    {
      hide Valid;
      if Inside(Now(), k, id) {
        var n := StepsTo(Now(), k, id);
        assert Passes(Now(), id, id, n + 1);
        NoCycle(Now(), id, n + 1);
      }
    }

    lemma WalkDone(id: string, done: set<string>)
      requires Valid(Now()) && Walk(id, done, [])
      ensures Pick(order, done, true) == TileDocs.Subtree(Now(), id)
    {
      hide Inside, TilesOk, AllRooted;
      forall k | k in order ensures k in done <==> k in InsideOf(Now(), id) {
        if Inside(Now(), k, id) {
          WalkComplete(id, done, k, StepsTo(Now(), k, id));
        }
      }
      PickSame(order, done, InsideOf(Now(), id), true);
    }

    lemma {:induction false} WalkComplete(id: string, done: set<string>, k: string, n: nat)
      requires Walk(id, done, []) && Passes(Now(), k, id, n)
      ensures k in done
      decreases n
    {
      if n > 0 {
        WalkComplete(id, done, tiles[k].parent.value, n - 1);
      }
    }

    // ---- moving ----

    method TakeOpened(id: string) returns (items: seq<Tile>)
      requires Valid(Now())
      modifies this`order, this`tiles
      ensures items == Taken(old(Now()), id) && Now() == Left(old(Now()), id)
    {
      hide Valid, Taken, Left, Pick, NoDup, Moved, SetOf, InsideOf, TileDocs.Subtree;
      SubtreeIds(Now(), id);
      ghost var was := Now();
      var ids := Subtree(id);
      items := [];
      NoneMoved(tiles, ids);
      for i := 0 to |ids|
        invariant order == was.order && rootId == was.root
        invariant Moved(was.tiles, ids, i, items, tiles)
      {
        OneMoved(was.tiles, ids, i, items, tiles);
        items := items + [tiles[ids[i]]];
        tiles := tiles - {ids[i]};
      }
      AllMoved(was, id, ids, items, tiles);
      order := Pick(order, tiles.Keys, true);
    }

    method PlaceAfter(after: string, ids: seq<string>)
      modifies this`order
      ensures Now() == Place(old(Now()), after, ids)
    {
      var at := |order|;
      var behind := after;
      if behind == "" {
        behind := rootId;
      }
      var i := IndexOf(order, behind);
      if i >= 0 {
        at := i + 1;
      }
      order := Insert(order, at, ids);
    }

    method PutOpened(after: string, items: seq<Tile>)
      modifies this`order, this`tiles
      ensures Now() == Put(old(Now()), after, items)
    {
      hide Place, Hang, PutAll;
      var inside: set<string> := {};
      for i := 0 to |items|
        invariant inside == IdSet(items[..i])
      {
        assert items[..i + 1] == items[..i] + [items[i]];
        inside := inside + {items[i].id};
      }
      assert items[..|items|] == items;
      var ids := HangAll(items, inside);
      PlaceAfter(after, ids);
    }

    /** The second loop of it. */
    method HangAll(items: seq<Tile>, inside: set<string>) returns (ids: seq<string>)
      modifies this`tiles
      ensures ids == Ids(items) && tiles == PutAll(old(tiles), rootId, inside, items)
    {
      hide Hang;
      ghost var was := tiles;
      ids := [];
      for i := 0 to |items|
        invariant ids == Ids(items)[..i] && tiles == PutAll(was, rootId, inside, items[..i])
      {
        var t := items[i];
        HangIs(rootId, inside, t);
        if t.parent.None? || t.parent.value !in inside {
          t := t.(parent := Some(rootId));
        }
        assert items[..i + 1][..i] == items[..i];
        tiles := tiles[t.id := t];
        ids := ids + [t.id];
      }
      assert items[..|items|] == items && ids == Ids(items);
    }

    method DetachFolder(id: string) returns (refused: Option<Refusal>, out: TileDoc)
      requires Valid(Now())
      modifies this`order, this`tiles
      ensures refused == (if id !in old(tiles) then Some(NotFound)
                          else if !CanRoot(old(tiles)[id].kind) then Some(NotRootable)
                          else if id == rootId then Some(IsRoot) else None)
      ensures refused.Some? ==> Now() == old(Now())
      ensures refused.None? ==> fresh(out) && out.Now() == CutOff(old(Now()), id) && Now() == Left(old(Now()), id)
    {
      out := this;
      if id !in tiles {
        return Some(NotFound), this;
      }
      if !CanRoot(tiles[id].kind) {
        return Some(NotRootable), this;
      }
      if id == rootId {
        return Some(IsRoot), this;
      }
      hide Valid, InsideOf, Pick, CutOff, Left, TileDocs.Subtree, NoDup, SetOf;
      ghost var d := Now();
      SubtreeIds(d, id);
      var t := tiles[id];
      var ids := Subtree(id);
      var order1, tiles1 := TakeOut(id, ids);
      order := Pick(order, tiles1.Keys, false);
      Detached(d, id, tiles1);
      tiles1 := tiles1[id := t.(parent := None)];
      out := new TileDoc(Doc(id, order1, tiles1));
      refused := None;
    }

    /** The loop of `detachFolder` over the tiles that go. */
    method TakeOut(id: string, ids: seq<string>) returns (order1: seq<string>, tiles1: map<string, Tile>)
      requires NoDup(ids) && forall k :: k in ids ==> k in tiles
      modifies this`tiles
      ensures tiles1.Keys == SetOf(ids) && forall k :: k in tiles1 ==> k in old(tiles) && tiles1[k] == old(tiles)[k]
      ensures order1 == [id] + Pick(ids, {id}, false)
      ensures tiles == old(tiles) - SetOf(ids)
    {
      hide NoDup;
      order1, tiles1 := [id], map[];
      for i := 0 to |ids|
        invariant tiles1.Keys == SetOf(ids[..i])
                  && forall k :: k in tiles1 ==> k in old(tiles) && tiles1[k] == old(tiles)[k]
        invariant order1 == [id] + Pick(ids[..i], {id}, false)
        invariant tiles == old(tiles) - SetOf(ids[..i])
      {
        NextName(ids, i);
        tiles1 := tiles1[ids[i] := tiles[ids[i]]];
        if ids[i] != id {
          order1 := order1 + [ids[i]];
        }
        tiles := tiles - {ids[i]};
      }
      assert ids[..|ids|] == ids;
    }

    // ---- a document sent by a browser ----

    method KeepFolderMeta(stored: TileDoc)
      requires stored != this
      modifies this`tiles
      ensures Now() == KeepMeta(old(Now()), stored.Now())
    {
      hide KeptMeta;
      ghost var was := tiles;
      var left := tiles.Keys;
      while left != {}
        invariant left <= tiles.Keys == was.Keys
        invariant forall k :: k in was && k in left ==> tiles[k] == was[k]
        invariant forall k :: k in was && k !in left ==> tiles[k] == KeptMeta(was[k], stored.tiles, k)
        decreases |left|
      {
        var key :| key in left;
        left := left - {key};
        var t := TileMeta(tiles[key], key, stored);
        tiles := tiles[key := t];
      }
    }

    /** The server's own fields of one tile. */
    method TileMeta(sent: Tile, key: string, stored: TileDoc) returns (t: Tile)
      ensures t == KeptMeta(sent, stored.tiles, key)
    {
      t := sent.(shownAt := 0, bound := false);
      if t.kind.Folder? {
        t := t.(uid := "");
        if key in stored.tiles && stored.tiles[key].kind.Folder? {
          var s := stored.tiles[key];
          t := t.(uid := s.uid);
          if s.node == t.node {
            t := t.(shownAt := s.shownAt, bound := s.bound);
          }
        }
      }
    }

    method CheckTerminalUIDs(stored: TileDoc) returns (ok: bool)
      ensures ok <==> TerminalsOk(Now(), stored.Now())
    {
      var had: set<string> := set k | k in stored.tiles && HoldsProc(stored.tiles[k].kind) :: stored.tiles[k].uid;
      var seen: set<string> := {};
      var left := tiles.Keys;
      while left != {}
        invariant left <= tiles.Keys
        invariant forall u ::
                    u in seen <==> exists k :: k in tiles && k !in left && HoldsProc(tiles[k].kind) && tiles[k].uid == u
        invariant forall k :: k in tiles && k !in left && HoldsProc(tiles[k].kind) ==> tiles[k].uid in had
        invariant forall k, m ::
                    k in tiles && k !in left && m in tiles && m !in left && SameProc(tiles[k], tiles[m]) ==> k == m
        decreases |left|
      {
        var key :| key in left;
        ghost var was := left;
        left := left - {key};
        var t := tiles[key];
        if HoldsProc(t.kind) {
          if t.uid !in had {
            return false;
          }
          if t.uid in seen {
            ghost var k :| k in tiles && k !in was && HoldsProc(tiles[k].kind) && tiles[k].uid == t.uid;
            assert SameProc(tiles[k], tiles[key]);
            return false;
          }
          seen := seen + {t.uid};
        }
      }
      return true;
    }

    method CheckVideoTiles(stored: TileDoc, video: string -> bool) returns (ok: bool)
      ensures ok <==> VideosOk(Now(), stored.Now(), video)
    {
      var left := tiles.Keys;
      while left != {}
        invariant left <= tiles.Keys
        invariant forall k :: k in tiles && k !in left && IsVideoTile(tiles[k], video) ==>
          k in stored.tiles && stored.tiles[k].kind.Viewer? && stored.tiles[k].instance == tiles[k].instance
          && stored.tiles[k].path == tiles[k].path
        decreases |left|
      {
        var id :| id in left;
        left := left - {id};
        var t := tiles[id];
        if IsVideoTile(t, video) {
          if id !in stored.tiles || !stored.tiles[id].kind.Viewer? || stored.tiles[id].instance != t.instance
          || stored.tiles[id].path != t.path {
            return false;
          }
        }
      }
      return true;
    }

    method TerminalUIDs() returns (uids: seq<string>)
      ensures forall u :: u in uids <==> u != "" && ShowsProc(Now(), u)
    {
      uids := [];
      var left := tiles.Keys;
      while left != {}
        invariant left <= tiles.Keys
        invariant forall u ::
                    u in uids <==>
                      u != "" && exists k :: k in tiles && k !in left && HoldsProc(tiles[k].kind) && tiles[k].uid == u
        decreases |left|
      {
        var key :| key in left;
        left := left - {key};
        if HoldsProc(tiles[key].kind) && tiles[key].uid != "" {
          uids := uids + [tiles[key].uid];
        }
      }
    }

    /** The terminals a save closes: those stored and no longer there. */
    method ClosedTerminals(stored: TileDoc) returns (out: seq<string>)
      ensures forall u :: u in out <==> u != "" && ShowsProc(stored.Now(), u) && !ShowsProc(Now(), u)
    {
      var keep := TerminalUIDs();
      var uids := stored.TerminalUIDs();
      out := [];
      for i := 0 to |uids|
        invariant forall u :: u in out <==> u in uids[..i] && u !in keep
      {
        assert uids[..i + 1] == uids[..i] + [uids[i]];
        if uids[i] !in keep {
          out := out + [uids[i]];
        }
      }
      assert uids[..|uids|] == uids;
    }

    /** `folderTileOf`: of the folder tiles showing a node the one that comes first on the screen. */
    method FolderTileOf(node: int) returns (found: Option<string>)
      ensures found.Some? ==> found.value in order && found.value in tiles && ShowsNode(found.value, node)
      ensures found.None? ==> forall k :: k in order && k in tiles ==> !ShowsNode(k, node)
    {
      for n := 0 to |order|
        invariant forall k :: k in order[..n] && k in tiles ==> !ShowsNode(k, node)
      {
        assert order[..n + 1] == order[..n] + [order[n]];
        if order[n] in tiles && ShowsNode(order[n], node) {
          return Some(order[n]);
        }
      }
      assert order[..|order|] == order;
      return None;
    }

    predicate ShowsNode(k: string, node: int)
      requires k in tiles
      reads this`tiles
    {
      tiles[k].kind.Folder? && tiles[k].node == Some(node)
    }

    method HasFolderUID(uid: string) returns (has: bool)
      ensures has <==> exists k :: k in tiles && tiles[k].kind.Folder? && tiles[k].uid == uid
    {
      var left := tiles.Keys;
      while left != {}
        invariant left <= tiles.Keys
                  && forall k :: k in tiles && k !in left ==> !(tiles[k].kind.Folder? && tiles[k].uid == uid)
        decreases |left|
      {
        var key :| key in left;
        left := left - {key};
        if tiles[key].kind.Folder? && tiles[key].uid == uid {
          return true;
        }
      }
      return false;
    }

    /** `terminalOf`: a tile of the process, if the document has one. */
    method TerminalOf(uid: string) returns (found: Option<string>)
      ensures found.Some? ==>
                found.value in tiles && HoldsProc(tiles[found.value].kind) && tiles[found.value].uid == uid
      ensures found.None? ==> forall k :: k in tiles && HoldsProc(tiles[k].kind) ==> tiles[k].uid != uid
    {
      var left := tiles.Keys;
      while left != {}
        invariant left <= tiles.Keys
                  && forall k :: k in tiles && k !in left && HoldsProc(tiles[k].kind) ==> tiles[k].uid != uid
        decreases |left|
      {
        var key :| key in left;
        left := left - {key};
        if HoldsProc(tiles[key].kind) && tiles[key].uid == uid {
          return Some(key);
        }
      }
      return None;
    }
  }

  /** The tiles of the processes that the walk has come by. */
  function Behind(d: Doc, uids: set<string>, left: set<string>): set<string> { ProcTiles(d, uids) - left }

  lemma OneBehind(d: Doc, uids: set<string>, left: set<string>, key: string)
    requires key in left
    ensures left - {key} + {key} == left && key !in Behind(d, uids, left) && Behind(d, uids, left) <= ProcTiles(d, uids)
    ensures Behind(d, uids, left - {key}) == Behind(d, uids, left) + if key in ProcTiles(d, uids) then {key} else {}
    ensures Behind(d, uids, left - {key}) != {} <==> Behind(d, uids, left) != {} || key in ProcTiles(d, uids)
  {
    hide ProcTiles;
    if key in ProcTiles(d, uids) {
      assert key in Behind(d, uids, left - {key});
    }
  }

  lemma NoneLeft(d: Doc, uids: set<string>)
    ensures Behind(d, uids, {}) == ProcTiles(d, uids)
  {
    hide ProcTiles;
  }

  lemma LiftedIs(t: Tile, id: string, up: Option<string>)
    ensures Lifted(t, id, up) == if t.parent == Some(id) then t.(parent := up) else t
  {
  }

  // ---- the walk, on values ----

  ghost predicate NoneDone(done: set<string>, stack: seq<string>) { forall k :: k in stack ==> k !in done }

  ghost predicate AllInside(d: Doc, id: string, done: set<string>, stack: seq<string>) {
    forall k {:trigger Inside(d, k, id)} :: k in done || k in stack ==> Inside(d, k, id) && (k in d.tiles || k == id)
  }

  /** What has been met was opened by what is done. */
  ghost predicate OpenedFrom(d: Doc, id: string, done: set<string>, stack: seq<string>) {
    forall k :: (k in done || k in stack) && k != id ==>
                  k in d.tiles && d.tiles[k].parent.Some? && d.tiles[k].parent.value in done
  }

  /** What is opened by what is done has been met. */
  ghost predicate OpensInto(d: Doc, done: set<string>, stack: seq<string>) {
    forall k :: k in d.tiles && d.tiles[k].parent.Some? && d.tiles[k].parent.value in done ==> k in done || k in stack
  }

  ghost predicate NextOf(d: Doc, id: string, k: string, x: string) {
    x in d.tiles && x != id && d.tiles[x].parent == Some(k) && Inside(d, x, id)
  }

  lemma TopIsInside(d: Doc, id: string, done: set<string>, stack: seq<string>)
    requires stack != [] && AllInside(d, id, done, stack) && NoneDone(done, stack)
    ensures var k := stack[|stack| - 1]; k !in done && Inside(d, k, id) && k in d.tiles.Keys + {id}
  {
    var k := stack[|stack| - 1];
    assert k in stack && Inside(d, k, id);
  }

  lemma StillApart(d: Doc, id: string, done: set<string>, stack: seq<string>, more: seq<string>)
    requires stack != [] && NoDup(stack) && NoneDone(done, stack) && forall x :: x in more ==> x !in stack && x !in done
    ensures NoneDone(done + {stack[|stack| - 1]}, stack[..|stack| - 1] + more)
  {
    OnTop(stack);
    TwoLists(stack[..|stack| - 1], more);
  }

  lemma StillInside(d: Doc, id: string, done: set<string>, stack: seq<string>, more: seq<string>)
    requires stack != [] && AllInside(d, id, done, stack)
    requires forall x :: x in more ==> NextOf(d, id, stack[|stack| - 1], x)
    ensures AllInside(d, id, done + {stack[|stack| - 1]}, stack[..|stack| - 1] + more)
  {
    hide Inside;
    OnTop(stack);
    TwoLists(stack[..|stack| - 1], more);
  }

  lemma StillOpened(d: Doc, id: string, done: set<string>, stack: seq<string>, more: seq<string>)
    requires stack != [] && OpenedFrom(d, id, done, stack)
    requires forall x :: x in more ==> NextOf(d, id, stack[|stack| - 1], x)
    ensures OpenedFrom(d, id, done + {stack[|stack| - 1]}, stack[..|stack| - 1] + more)
  {
    hide Inside;
    OnTop(stack);
    TwoLists(stack[..|stack| - 1], more);
  }

  lemma StillOpening(d: Doc, done: set<string>, stack: seq<string>, more: seq<string>)
    requires stack != [] && OpensInto(d, done, stack)
    requires forall x :: x in d.tiles && d.tiles[x].parent == Some(stack[|stack| - 1]) ==> x in more
    ensures OpensInto(d, done + {stack[|stack| - 1]}, stack[..|stack| - 1] + more)
  {
    OnTop(stack);
    TwoLists(stack[..|stack| - 1], more);
  }

  lemma IdStays(id: string, done: set<string>, stack: seq<string>, more: seq<string>)
    requires stack != [] && (id in done || id in stack)
    ensures id in done + {stack[|stack| - 1]} || id in stack[..|stack| - 1] + more
  {
    OnTop(stack);
  }

  lemma OnTop(stack: seq<string>)
    requires stack != []
    ensures var front, k := stack[..|stack| - 1], stack[|stack| - 1];
            && (forall x :: x in stack <==> x in front || x == k) && (NoDup(stack) ==> NoDup(front) && k !in front)
  {
    assert stack == stack[..|stack| - 1] + [stack[|stack| - 1]];
  }

  lemma TwoLists(a: seq<string>, b: seq<string>)
    ensures forall x :: x in a + b <==> x in a || x in b
  {
  }

  lemma JoinedLists(a: seq<string>, b: seq<string>)
    requires NoDup(a) && NoDup(b) && forall x :: x in b ==> x !in a
    ensures NoDup(a + b)
  {
    var r := a + b;
    forall i, j | 0 <= i < j < |r| ensures r[i] != r[j] {
      assert i < |a| ==> r[i] == a[i] && r[i] in a;
      assert i >= |a| ==> r[i] == b[i - |a|];
      assert j < |a| ==> r[j] == a[j];
      assert j >= |a| ==> r[j] == b[j - |a|] && r[j] in b;
    }
  }

  lemma SubtreeIds(d: Doc, id: string)
    requires Valid(d)
    ensures NoDup(TileDocs.Subtree(d, id)) && SetOf(TileDocs.Subtree(d, id)) == InsideOf(d, id)
    ensures forall k :: k in TileDocs.Subtree(d, id) ==> k in d.tiles
  {
    hide Valid, Inside;
    InsideIds(d, id);
  }

  lemma Detached(d: Doc, id: string, cut: map<string, Tile>)
    requires Valid(d) && id in d.tiles && id != d.root
    requires cut.Keys == InsideOf(d, id) && forall k :: k in cut ==> k in d.tiles && cut[k] == d.tiles[k]
    ensures CutOff(d, id) == Doc(id, [id] + Pick(TileDocs.Subtree(d, id), {id}, false),
                                 cut[id := d.tiles[id].(parent := None)])
    ensures Left(d, id) == Doc(d.root, Pick(d.order, cut.Keys, false), d.tiles - InsideOf(d, id))
  {
    hide Valid, Inside, Pick;
    LeftValid(d, id);
    assert CutOff(d, id).tiles == cut[id := d.tiles[id].(parent := None)];
  }

  lemma HangIs(root: string, inside: set<string>, t: Tile)
    ensures Hang(root, inside, t) == if t.parent.None? || t.parent.value !in inside then t.(parent := Some(root)) else t
  {
  }

  lemma NextName(ids: seq<string>, i: nat)
    requires NoDup(ids) && i < |ids|
    ensures ids[i] in ids && ids[i] !in SetOf(ids[..i]) && ids[..i + 1][..i] == ids[..i]
    ensures SetOf(ids[..i + 1]) == SetOf(ids[..i]) + {ids[i]}
  {
    assert ids[..i + 1] == ids[..i] + [ids[i]];
  }

  /** The first `i` tiles of `ids` are taken, the others left. */
  ghost predicate Moved(all: map<string, Tile>, ids: seq<string>, i: nat, items: seq<Tile>, left: map<string, Tile>) {
    && i <= |ids| && NoDup(ids) && (forall k :: k in ids ==> k in all)
    && items == TilesOf(Doc("", [], all), ids)[..i] && left == all - SetOf(ids[..i])
  }

  lemma NoneMoved(all: map<string, Tile>, ids: seq<string>)
    requires NoDup(ids) && forall k :: k in ids ==> k in all
    ensures Moved(all, ids, 0, [], all)
  {
    hide NoDup;
    assert all - SetOf(ids[..0]) == all;
  }

  lemma OneMoved(all: map<string, Tile>, ids: seq<string>, i: nat, items: seq<Tile>, left: map<string, Tile>)
    requires Moved(all, ids, i, items, left) && i < |ids|
    ensures ids[i] in left && Moved(all, ids, i + 1, items + [left[ids[i]]], left - {ids[i]})
  {
    hide NoDup;
    NextName(ids, i);
  }

  lemma AllMoved(d: Doc, id: string, ids: seq<string>, items: seq<Tile>, left: map<string, Tile>)
    requires Valid(d) && ids == TileDocs.Subtree(d, id) && Moved(d.tiles, ids, |ids|, items, left)
    ensures items == Taken(d, id) && Left(d, id) == Doc(d.root, Pick(d.order, left.Keys, true), left)
  {
    hide Valid, Inside, NoDup, Pick, TileDocs.Subtree;
    SubtreeIds(d, id);
    assert ids[..|ids|] == ids;
  }

  lemma AppendLists(s: seq<string>, ids: set<string>, k: string)
    requires Lists(s, ids) && k !in ids
    ensures Lists(s + [k], ids + {k})
  {
    assert forall i :: 0 <= i < |s| ==> s[i] in s;
  }

  lemma {:induction false} PickSame(s: seq<string>, a: set<string>, b: set<string>, keep: bool)
    requires forall k :: k in s ==> (k in a <==> k in b)
    ensures Pick(s, a, keep) == Pick(s, b, keep)
  {
    if s != [] {
      forall k | k in s[..|s| - 1] ensures k in a <==> k in b {
        assert k in s;
      }
      PickSame(s[..|s| - 1], a, b, keep);
      assert s[|s| - 1] in s;
    }
  }
}
