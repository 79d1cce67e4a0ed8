/** What the operations keep: every board stays one tree with each tile once in its order, and
    moving tiles between boards loses none, doubles none and keeps their order. */
module TileTrees {
  import opened Sequences
  import opened Wrappers
  import opened TileDocs

  /** A set of tiles closed under openers keeps its chains in a document that has the same ones. */
  ghost predicate SameChains(d: Doc, e: Doc, s: set<string>) {
    forall x {:trigger x in s} :: x in s ==>
      && x in d.tiles && x in e.tiles && (x == d.root <==> x == e.root) && e.tiles[x].parent == d.tiles[x].parent
      && (x != d.root && d.tiles[x].parent.Some? ==> d.tiles[x].parent.value in s)
  }

  lemma {:induction false} ChainsKept(d: Doc, e: Doc, s: set<string>, k: string, n: nat)
    requires SameChains(d, e, s) && k in s && Climbs(d, k, n)
    ensures Climbs(e, k, n)
    decreases n
  {
    if n > 0 {
      ChainsKept(d, e, s, d.tiles[k].parent.value, n - 1);
    }
  }

  lemma RootedKept(d: Doc, e: Doc, s: set<string>)
    requires SameChains(d, e, s) && AllRooted(d)
    ensures forall k :: k in s ==> Rooted(e, k)
  {
    hide Climbs;
    forall k | k in s ensures Rooted(e, k) {
      assert Rooted(d, k);
      var n: nat :| Climbs(d, k, n);
      ChainsKept(d, e, s, k, n);
    }
  }

  lemma OpenerOk(d: Doc, opener: string)
    requires Valid(d)
    ensures Opener(d, opener) in d.tiles && CanParent(d.tiles[Opener(d, opener)].kind) && Opener(d, opener) in d.order
  {
  }

  /** A tile is opened into a valid board as a valid board exactly when it is sound and new there. */
  lemma OpenValid(d: Doc, opener: string, t: Tile)
    requires Valid(d)
    ensures Valid(Open(d, opener, t)) <==> Sound(t) && t.id !in d.tiles
  {
    hide Valid, TilesOk, AllRooted, Sound, Opener, ValidSpan, CanParent, CanRoot, Climbs, RootOk, Rooted, FieldsOk,
         HoldsProc, IndexOf, NoDup, ParentOk;
    var e, p := Open(d, opener, t), Opener(d, opener);
    OpenerOk(d, opener);
    ValidParts(d);
    ValidParts(e);
    SoundParent(t, Some(p));
    var at := IndexOf(d.order, p) + 1;
    if t.id in d.tiles {
      assert t.id in d.order;
      Twice(d.order, at, t.id);
    } else {
      OneListed(t.id);
      InsertLists(d.order, d.tiles.Keys, at, [t.id], {t.id});
      assert e.tiles.Keys == d.tiles.Keys + {t.id};
      assert e.order[0] == d.order[0];
      OpenTiles(d, opener, t);
    }
  }

  lemma OneListed(k: string)
    ensures Lists([k], {k})
  {
  }

  lemma OpenTiles(d: Doc, opener: string, t: Tile)
    requires Valid(d) && t.id !in d.tiles
    ensures var e := Open(d, opener, t); RootOk(e) && AllRooted(e) && (TilesOk(e) <==> Sound(t))
  {
    hide Climbs, Sound, Opener, Rooted, OrderOk, Insert, IndexOf;
    var e, p := Open(d, opener, t), Opener(d, opener);
    OpenerOk(d, opener);
    SoundParent(t, Some(p));
    RootedKept(d, e, d.tiles.Keys);
    RootedUnder(e, t.id, p);
    if Sound(t) {
      forall k | k in e.tiles ensures e.tiles[k].id == k && Sound(e.tiles[k]) && ParentOk(e, k) {
        assert k != t.id ==> e.tiles[k] == d.tiles[k] && ParentOk(d, k);
      }
    } else {
      assert e.tiles[t.id] == t.(parent := Some(p));
    }
  }

  lemma ValidParts(d: Doc)
    ensures Valid(d) <==> RootOk(d) && OrderOk(d) && TilesOk(d) && AllRooted(d)
  {
  }

  lemma SoundParent(t: Tile, p: Option<string>)
    ensures Sound(t.(parent := p)) == Sound(t)
  {
  }

  lemma Twice(s: seq<string>, at: nat, k: string)
    requires at <= |s| && k in s
    ensures !NoDup(Insert(s, at, [k]))
  {
    var r := Insert(s, at, [k]);
    var i :| 0 <= i < |s| && s[i] == k;
    assert r[at] == k;
    if i < at {
      assert r[i] == k;
    } else {
      assert r[i + 1] == k;
    }
  }

  lemma RootedUnder(e: Doc, k: string, p: string)
    requires k in e.tiles && k != e.root && e.tiles[k].parent == Some(p) && Rooted(e, p)
    ensures Rooted(e, k)
  {
    var n: nat :| Climbs(e, p, n);
    assert Climbs(e, k, n + 1);
  }

  // ---- remove ----

  lemma {:induction false} RemoveRooted(d: Doc, id: string, k: string, n: nat)
    requires id in d.tiles && id != d.root && k != id && Climbs(d, k, n)
    ensures Rooted(Remove(d, id), k)
    decreases n
  {
    var e := Remove(d, id);
    if n == 0 {
      assert Climbs(e, k, 0);
    } else {
      var p := d.tiles[k].parent.value;
      if p == id {
        var q := d.tiles[id].parent.value;
        if q == id {
          DepthUnique(d, id, n - 1, n - 2);
        }
        RemoveRooted(d, id, q, n - 2);
        RootedUnder(e, k, q);
      } else {
        RemoveRooted(d, id, p, n - 1);
        RootedUnder(e, k, p);
      }
    }
  }

  /** Any tile but the root can be removed; what it opened is then opened by its opener. */
  lemma RemoveValid(d: Doc, id: string)
    requires Valid(d) && id in d.tiles && id != d.root
    ensures Valid(Remove(d, id)) && Remove(d, id).tiles.Keys == d.tiles.Keys - {id}
  {
    hide TilesOk, AllRooted;
    var e := Remove(d, id);
    assert e.tiles.Keys == d.tiles.Keys - {id};
    PickOut(d.order, d.tiles.Keys, id);
    PickFirst(d.order, {id}, false);
    RemoveTiles(d, id);
  }

  /** The document without some tiles that opened nothing. */
  function Without(d: Doc, ids: set<string>): Doc {
    Doc(d.root, Pick(d.order, ids, false), map k | k in d.tiles && k !in ids :: d.tiles[k])
  }

  /** Tiles that cannot open others, the root not among them. */
  ghost predicate Leaves(d: Doc, ids: set<string>) {
    forall k :: k in ids ==> k in d.tiles && k != d.root && !CanParent(d.tiles[k].kind)
  }

  /** The tiles of some processes. */
  function ProcTiles(d: Doc, uids: set<string>): set<string> {
    set k | k in d.tiles && HoldsProc(d.tiles[k].kind) && d.tiles[k].uid in uids
  }

  lemma InProcTiles(d: Doc, uids: set<string>, k: string)
    requires k in d.tiles
    ensures k in ProcTiles(d, uids) <==> HoldsProc(d.tiles[k].kind) && d.tiles[k].uid in uids
  {
  }

  lemma ProcsAreLeaves(d: Doc, uids: set<string>)
    requires Valid(d)
    ensures Leaves(d, ProcTiles(d, uids))
  {
  }

  lemma FewerLeaves(d: Doc, all: set<string>, some: set<string>)
    requires Leaves(d, all) && some <= all
    ensures Leaves(d, some)
  {
  }

  lemma {:induction false} PickTwice(s: seq<string>, a: set<string>, b: set<string>)
    ensures Pick(Pick(s, a, false), b, false) == Pick(s, a + b, false)
  {
    if s != [] {
      PickTwice(s[..|s| - 1], a, b);
      var front, last := Pick(s[..|s| - 1], a, false), s[|s| - 1];
      if last !in a {
        PickConcat(front, [last], b, false);
        assert Pick([last], b, false) == if last in b then [] else [last] by { assert [last][..0] == []; }
      } else {
        assert front + [] == front;
      }
    }
  }

  /** One of them after the others: nothing moves up. */
  lemma RemoveNext(d: Doc, ids: set<string>, id: string)
    requires Valid(d) && Leaves(d, ids + {id}) && id !in ids
    ensures id in Without(d, ids).tiles && Remove(Without(d, ids), id) == Without(d, ids + {id})
  {
    PickTwice(d.order, ids, {id});
    hide Pick, Sound, OrderOk, AllRooted;
    var e, f := Remove(Without(d, ids), id), Without(d, ids + {id});
    forall k | k in d.tiles ensures d.tiles[k].parent != Some(id) {
      assert ParentOk(d, k);
    }
    assert e.tiles == f.tiles;
  }

  /** In whatever order such tiles are removed, the document stays valid. */
  lemma {:induction false} WithoutValid(d: Doc, ids: set<string>)
    requires Valid(d) && Leaves(d, ids)
    ensures Valid(Without(d, ids))
    decreases |ids|
  {
    hide Valid, Pick, Remove, CanParent;
    if ids == {} {
      WithoutNone(d);
    } else {
      var id :| id in ids;
      var rest := ids - {id};
      assert rest + {id} == ids;
      WithoutValid(d, rest);
      RemoveNext(d, rest, id);
      RemoveValid(Without(d, rest), id);
    }
  }

  lemma WithoutIs(d: Doc, ids: set<string>)
    ensures var e := Without(d, ids); e.root == d.root && e.tiles.Keys == d.tiles.Keys - ids
    ensures forall k :: k in d.tiles && k !in ids ==> Without(d, ids).tiles[k] == d.tiles[k]
  {
    hide Pick;
  }

  lemma WithoutNone(d: Doc)
    ensures Without(d, {}) == d
  {
    PickAll(d.order, {}, false);
  }

  lemma RemoveTiles(d: Doc, id: string)
    requires Valid(d) && id in d.tiles && id != d.root
    ensures TilesOk(Remove(d, id)) && AllRooted(Remove(d, id))
  {
    hide Climbs, Sound, OrderOk, Pick, ParentOk, Rooted;
    var e := Remove(d, id);
    forall k | k in e.tiles ensures e.tiles[k].id == k && Sound(e.tiles[k]) && ParentOk(e, k) && Rooted(e, k) {
      var n := DepthOf(d, k);
      RemoveRooted(d, id, k, n);
      SoundParent(d.tiles[k], d.tiles[id].parent);
      ParentAfterRemove(d, id, k, n);
    }
  }

  lemma ParentAfterRemove(d: Doc, id: string, k: string, n: nat)
    requires RootOk(d) && TilesOk(d) && id in d.tiles && id != d.root && k in d.tiles && k != id && Climbs(d, k, n)
    ensures ParentOk(Remove(d, id), k)
  {
    hide Sound;
    if d.tiles[k].parent == Some(id) && d.tiles[id].parent == Some(id) {
      DepthUnique(d, id, n - 1, n - 2);
    }
  }

  /** Whatever is not the tile removed stays under what it was under. */
  lemma {:induction false} StaysUnder(d: Doc, id: string, k: string, x: string, n: nat)
    requires Valid(d) && id in d.tiles && id != d.root && k in d.tiles && k != id && x != id && Passes(d, k, x, n)
    ensures Inside(Remove(d, id), k, x)
    decreases n
  {
    hide Valid;
    var e := Remove(d, id);
    assert k in e.tiles;
    if k != x {
      var p := d.tiles[k].parent.value;
      OpenerIsTile(d, k);
      if p != id {
        StaysUnder(d, id, p, x, n - 1);
      } else {
        var q := d.tiles[id].parent.value;
        OpenerIsTile(d, id);
        NotOwnOpener(d, id);
        StaysUnder(d, id, q, x, n - 2);
      }
    }
    InsideStep(e, k, x);
  }

  lemma OpenerIsTile(d: Doc, k: string)
    requires Valid(d) && k in d.tiles
    ensures d.tiles[k].parent.Some? ==> d.tiles[k].parent.value in d.tiles
    ensures d.tiles[k].parent.None? ==> k == d.root
  {
    assert ParentOk(d, k);
  }

  lemma NotOwnOpener(d: Doc, id: string)
    requires Valid(d) && id in d.tiles
    ensures d.tiles[id].parent != Some(id)
  {
    hide Valid;
    if d.tiles[id].parent == Some(id) {
      assert Passes(d, id, id, 0);
      assert Passes(d, id, id, 1);
      NoCycle(d, id, 1);
    }
  }

  /** And nothing comes under anything new. */
  lemma {:induction false} NothingNewUnder(d: Doc, id: string, k: string, x: string, n: nat)
    requires Valid(d) && id in d.tiles && id != d.root && k in d.tiles && k != id && Passes(Remove(d, id), k, x, n)
    ensures Inside(d, k, x)
    decreases n
  {
    hide Valid;
    var e := Remove(d, id);
    if k != x {
      var p := e.tiles[k].parent.value;
      OpenerIsTile(d, k);
      OpenerIsTile(d, id);
      NotOwnOpener(d, id);
      NothingNewUnder(d, id, p, x, n - 1);
      if d.tiles[k].parent == Some(id) {
        InsideStep(d, id, x);
      }
    }
    InsideStep(d, k, x);
  }

  /** Removing a tile changes no other tile's place in the tree: `k` is under `x` afterwards
      exactly when it was before. */
  lemma RemoveKeepsUnder(d: Doc, id: string, k: string, x: string)
    requires Valid(d) && id in d.tiles && id != d.root && k in d.tiles && k != id && x != id
    ensures Inside(Remove(d, id), k, x) <==> Inside(d, k, x)
  {
    hide Valid, Remove;
    if Inside(d, k, x) {
      StaysUnder(d, id, k, x, StepsTo(d, k, x));
    }
    if Inside(Remove(d, id), k, x) {
      NothingNewUnder(d, id, k, x, StepsTo(Remove(d, id), k, x));
    }
  }

  // ---- where things are put ----

  /** From `d` to `e` the tile `id` was hung on the tile `opener`, if that is there and is a folder or
      a device, and else on the root; it stands right behind it, and all others are as they were. */
  ghost predicate HungOn(d: Doc, e: Doc, opener: string, id: string) {
    var p := if opener in d.tiles && (d.tiles[opener].kind == Folder || d.tiles[opener].kind == Device) then opener
             else d.root;
    && id in e.tiles && e.tiles[id].parent == Some(p)
    && StandsBehind(d.order, e.order, p, id)
    && e.root == d.root && e.tiles.Keys == d.tiles.Keys + {id}
    && forall k {:trigger e.tiles[k]} :: k in d.tiles && k != id ==> e.tiles[k].parent == d.tiles[k].parent
  }

  /** `s` with `k` put in right behind `p`. */
  ghost predicate StandsBehind(s: seq<string>, r: seq<string>, p: string, k: string) {
    exists i {:trigger s[i]} :: 0 <= i < |s| && s[i] == p && r == s[..i + 1] + [k] + s[i + 1..]
  }

  /** Where an opened tile hangs and stands. */
  lemma OpenPlaced(d: Doc, opener: string, t: Tile)
    requires Valid(d)
    ensures HungOn(d, Open(d, opener, t), opener, t.id)
    ensures Open(d, opener, t).tiles[t.id].(parent := None) == t.(parent := None)
  {
    hide Valid, Insert, IndexOf, Open, StandsBehind;
    OpenerOk(d, opener);
    InsertedAt(d.order, Opener(d, opener), t.id);
    OpenedFields(d, opener, t);
  }

  lemma OpenedFields(d: Doc, opener: string, t: Tile)
    ensures var p, e := Opener(d, opener), Open(d, opener, t);
            && e.root == d.root && e.order == Insert(d.order, IndexOf(d.order, p) + 1, [t.id])
            && e.tiles == d.tiles[t.id := t.(parent := Some(p))]
  {
    hide Insert, IndexOf, Opener;
  }

  lemma InsertedAt(s: seq<string>, p: string, k: string)
    requires p in s
    ensures StandsBehind(s, Insert(s, IndexOf(s, p) + 1, [k]), p, k)
  {
    var i := IndexOf(s, p);
    assert s[i] == p;
  }

  /** A bundle stands together right behind the tile asked for; behind the root when none is
      asked for; at the end when that tile is not there. */
  lemma PutPlaced(src: Doc, id: string, dst: Doc, after: string)
    requires Valid(src) && Valid(dst)
    ensures var e, ids := Put(dst, after, Taken(src, id)), Subtree(src, id);
            exists at :: 0 < at <= |dst.order| && e.order == dst.order[..at] + ids + dst.order[at..]
                         && if after == "" then at == 1 else if after in dst.tiles then dst.order[at - 1] == after
                            else at == |dst.order|
  {
    hide AllRooted, CanParent, CanRoot, Climbs, FieldsOk, Hang, HoldsProc, IdSet, Rooted, Sound, Subtree, Taken,
         TilesOf, TilesOk, Valid, ValidSpan, InsideOf, Lists, NoDup, OrderOk, ParentOk, Passes, Pick, Place, Ids,
         IndexOf, PutAll, RootOk, Inside, Put;
    PutTiles(src, id, dst, after, "");
    OrderIs(dst);
    RootFirst(dst);
    hide Valid, Put, Subtree, InsideOf;
    var at := PlaceAt(dst, after);
    assert 0 < at <= |dst.order|;
  }

  lemma RootFirst(d: Doc)
    requires Valid(d)
    ensures d.order != [] && d.order[0] == d.root && d.root != "" && IndexOf(d.order, d.root) == 0
  {
    assert d.tiles[d.root].id == d.root && Sound(d.tiles[d.root]);
  }

  // ---- taking out ----

  lemma InsideIds(d: Doc, id: string)
    requires Valid(d)
    ensures Lists(Subtree(d, id), InsideOf(d, id))
    ensures forall k :: k in Subtree(d, id) <==> k in d.tiles && Inside(d, k, id)
  {
    hide Inside, TilesOk, AllRooted;
    PickLists(d.order, d.tiles.Keys, InsideOf(d, id), true);
    assert InsideOf(d, id) == set k | k in d.tiles.Keys && (k in InsideOf(d, id)) == true;
  }

  /** What is left when a tile other than the root goes with all it opened is a valid board. */
  lemma LeftValid(d: Doc, id: string)
    requires Valid(d) && id != d.root
    ensures Valid(Left(d, id)) && Left(d, id).tiles == d.tiles - InsideOf(d, id)
    ensures Left(d, id).order == Pick(d.order, InsideOf(d, id), false)
  {
    hide Inside, TilesOk, AllRooted;
    var e, inside := Left(d, id), InsideOf(d, id);
    RootOutside(d, id);
    PickLists(d.order, d.tiles.Keys, e.tiles.Keys, true);
    assert e.tiles.Keys == set k | k in d.tiles.Keys && (k in e.tiles.Keys) == true;
    PickFirst(d.order, e.tiles.Keys, true);
    Complement(d.order, d.tiles.Keys, inside);
    LeftTiles(d, id);
  }

  lemma LeftTiles(d: Doc, id: string)
    requires Valid(d) && id != d.root
    ensures TilesOk(Left(d, id)) && AllRooted(Left(d, id))
  {
    hide Inside, Climbs, Sound, Rooted, OrderOk, Pick;
    var e := Left(d, id);
    RootOutside(d, id);
    forall k | k in e.tiles ensures ParentOk(e, k) {
      assert ParentOk(d, k);
      InsideStep(d, k, id);
    }
    RootedKept(d, e, e.tiles.Keys);
  }

  lemma {:induction false} Complement(s: seq<string>, all: set<string>, out: set<string>)
    requires forall k :: k in s ==> k in all
    ensures Pick(s, all - out, true) == Pick(s, out, false)
  {
    if s != [] {
      forall k | k in s[..|s| - 1] ensures k in all {
        assert k in s;
      }
      Complement(s[..|s| - 1], all, out);
      assert s[|s| - 1] in s;
    }
  }

  // ---- putting in ----

  lemma {:induction false} PutAllAt(tiles: map<string, Tile>, root: string, inside: set<string>, items: seq<Tile>,
                                    k: string)
    requires NoDup(Ids(items))
    ensures var r := PutAll(tiles, root, inside, items);
            && (k in r <==> k in tiles || k in IdSet(items))
            && (k in tiles && k !in IdSet(items) ==> r[k] == tiles[k])
            && (forall i :: 0 <= i < |items| && items[i].id == k ==> r[k] == Hang(root, inside, items[i]))
  {
    if items != [] {
      var front, last := items[..|items| - 1], items[|items| - 1];
      assert Ids(front) == Ids(items)[..|items| - 1];
      PutAllAt(tiles, root, inside, front, k);
      assert items == front + [last];
      assert IdSet(items) == IdSet(front) + {last.id};
      forall i | 0 <= i < |front| ensures items[i] == front[i] && items[i].id != last.id {
        assert Ids(items)[i] == items[i].id && Ids(items)[|items| - 1] == last.id;
      }
    }
  }

  lemma TakenIds(d: Doc, ids: seq<string>)
    requires (forall k :: k in ids ==> k in d.tiles) && TilesOk(d)
    ensures Ids(TilesOf(d, ids)) == ids
    ensures forall k :: k in IdSet(TilesOf(d, ids)) <==> k in ids
  {
    hide Sound;
    var items := TilesOf(d, ids);
    forall i | 0 <= i < |ids| ensures items[i].id == ids[i] {
      assert ids[i] in ids;
    }
    forall k ensures k in IdSet(items) <==> k in ids {
      if k in ids {
        var i :| 0 <= i < |ids| && ids[i] == k;
        assert items[i] in items;
      }
    }
  }

  /** The tiles `takeOpened` hands over. */
  ghost function Taken(d: Doc, id: string): seq<Tile>
    requires Valid(d)
  {
    InsideIds(d, id);
    TilesOf(d, Subtree(d, id))
  }

  /** The board after `putOpened` of what was taken out of another one, tile by tile. */
  lemma PutTiles(src: Doc, id: string, dst: Doc, after: string, k: string)
    requires Valid(src)
    ensures var e := Put(dst, after, Taken(src, id));
            && (k in e.tiles <==> k in dst.tiles || k in InsideOf(src, id))
            && (k in InsideOf(src, id) ==> e.tiles[k] == Hang(dst.root, InsideOf(src, id), src.tiles[k]))
            && (k in dst.tiles && k !in InsideOf(src, id) ==> e.tiles[k] == dst.tiles[k])
            && e.root == dst.root && e.order == Insert(dst.order, PlaceAt(dst, after), Subtree(src, id))
  {
    hide Inside, Sound, AllRooted, Hang, CanParent, CanRoot, Climbs, FieldsOk, HoldsProc, IdSet, Ids, IndexOf, Insert,
         InsideOf, ParentOk, Passes, Pick, PutAll, RootOk, Rooted, NoDup, OrderOk, Subtree, ValidSpan;
    InsideIds(src, id);
    var ids, items := Subtree(src, id), Taken(src, id);
    TakenIds(src, ids);
    assert IdSet(items) == InsideOf(src, id);
    PutAllAt(dst.tiles, dst.root, IdSet(items), items, k);
    if k in InsideOf(src, id) {
      var i :| 0 <= i < |ids| && ids[i] == k;
      assert items[i] == src.tiles[k];
    }
  }

  /** A bundle taken out of a valid board makes a valid board a valid board again exactly when
      the two have no tile id in common; otherwise the save is refused. */
  lemma PutValid(src: Doc, id: string, dst: Doc, after: string)
    requires Valid(src) && Valid(dst)
    ensures Valid(Put(dst, after, Taken(src, id))) <==> InsideOf(src, id) !! dst.tiles.Keys
  {
    hide Inside, Climbs, Sound, Rooted, Valid, Put, Subtree, InsideOf, AllRooted, CanParent, CanRoot, FieldsOk, Hang,
         HoldsProc, PutAll, RootOk, Taken, TilesOf, TilesOk, ValidSpan, IdSet, Ids, IndexOf, Pick, Place, PlaceAt,
         Insert, NoDup, ParentOk, Passes;
    ValidParts(src);
    ValidParts(dst);
    var inside, e := InsideOf(src, id), Put(dst, after, Taken(src, id));
    ValidParts(e);
    InsideIds(src, id);
    forall k ensures (k in e.tiles <==> k in dst.tiles || k in inside)
             ensures k in inside ==> e.tiles[k] == Hang(dst.root, inside, src.tiles[k])
             ensures k in dst.tiles && k !in inside ==> e.tiles[k] == dst.tiles[k]
    {
      PutTiles(src, id, dst, after, k);
    }
    PutTiles(src, id, dst, after, "");
    if k :| k in inside && k in dst.tiles {
      assert k in Subtree(src, id) && k in dst.order;
      TwiceInsert(dst.order, PlaceAt(dst, after), Subtree(src, id), k);
    } else {
      assert e.tiles.Keys == dst.tiles.Keys + inside;
      InsertLists(dst.order, dst.tiles.Keys, PlaceAt(dst, after), Subtree(src, id), inside);
      PutOrder(dst, after, Subtree(src, id));
      PutKeepsTiles(src, id, dst, e);
    }
  }

  lemma TwiceInsert(s: seq<string>, at: nat, ids: seq<string>, k: string)
    requires at <= |s| && k in s && k in ids
    ensures !NoDup(Insert(s, at, ids))
  {
    var r := Insert(s, at, ids);
    var i :| 0 <= i < |s| && s[i] == k;
    var j :| 0 <= j < |ids| && ids[j] == k;
    assert r[at + j] == k;
    if i < at {
      assert r[i] == k;
    } else {
      assert r[i + |ids|] == k;
    }
  }

  lemma PutOrder(dst: Doc, after: string, ids: seq<string>)
    requires OrderOk(dst)
    ensures Insert(dst.order, PlaceAt(dst, after), ids) != []
            && Insert(dst.order, PlaceAt(dst, after), ids)[0] == dst.root
  {
  }

  lemma PutKeepsTiles(src: Doc, id: string, dst: Doc, e: Doc)
    requires Valid(src) && Valid(dst) && InsideOf(src, id) !! dst.tiles.Keys && e.root == dst.root
    requires e.tiles.Keys == dst.tiles.Keys + InsideOf(src, id)
    requires forall k {:trigger e.tiles[k]} :: k in e.tiles ==>
      e.tiles[k] == if k in InsideOf(src, id) then Hang(dst.root, InsideOf(src, id), src.tiles[k]) else dst.tiles[k]
    ensures RootOk(e) && TilesOk(e) && AllRooted(e)
  {
    hide Inside, Climbs, Rooted, InsideOf, OrderOk, Sound, AllRooted;
    var inside := InsideOf(src, id);
    InsideIds(src, id);
    assert e.tiles[dst.root] == dst.tiles[dst.root];
    forall k | k in e.tiles ensures e.tiles[k].id == k && Sound(e.tiles[k]) && ParentOk(e, k) {
      if k in inside {
        SoundParent(src.tiles[k], Some(dst.root));
        assert src.tiles[k].id == k && Sound(src.tiles[k]) && ParentOk(src, k);
        if src.tiles[k].parent.Some? && src.tiles[k].parent.value in inside {
          assert e.tiles[src.tiles[k].parent.value].kind == src.tiles[src.tiles[k].parent.value].kind;
        }
      } else {
        assert dst.tiles[k].id == k && Sound(dst.tiles[k]) && ParentOk(dst, k);
        if dst.tiles[k].parent.Some? {
          assert e.tiles[dst.tiles[k].parent.value] == dst.tiles[dst.tiles[k].parent.value];
        }
      }
    }
    PutRooted(src, id, dst, e);
  }

  lemma PutRooted(src: Doc, id: string, dst: Doc, e: Doc)
    requires Valid(src) && Valid(dst) && InsideOf(src, id) !! dst.tiles.Keys && e.root == dst.root
    requires e.tiles.Keys == dst.tiles.Keys + InsideOf(src, id)
    requires forall k {:trigger e.tiles[k]} :: k in e.tiles ==>
      e.tiles[k] == if k in InsideOf(src, id) then Hang(dst.root, InsideOf(src, id), src.tiles[k]) else dst.tiles[k]
    ensures AllRooted(e)
  {
    hide Inside, Climbs, InsideOf, Sound, OrderOk, Rooted;
    assert SameChains(dst, e, dst.tiles.Keys) by {
      forall x | x in dst.tiles.Keys ensures x in e.tiles && e.tiles[x].parent == dst.tiles[x].parent {
        assert e.tiles[x] == dst.tiles[x];
      }
      assert forall x :: x in dst.tiles ==> ParentOk(dst, x);
    }
    RootedKept(dst, e, dst.tiles.Keys);
    forall k | k in InsideOf(src, id) ensures Rooted(e, k) {
      assert k in src.tiles && Rooted(src, k) by { assert k in InsideOf(src, id); SubtreeIn(src, id, k); }
      HungRooted(src, id, e, k, DepthOf(src, k));
    }
  }

  lemma SubtreeIn(d: Doc, id: string, k: string)
    requires k in InsideOf(d, id) && AllRooted(d)
    ensures k in d.tiles && Rooted(d, k)
  {
  }

  ghost function DepthOf(d: Doc, k: string): (n: nat)
    requires Rooted(d, k)
    ensures Climbs(d, k, n)
  {
    var n: nat :| Climbs(d, k, n);
    n
  }

  lemma {:induction false} HungRooted(src: Doc, id: string, e: Doc, k: string, n: nat)
    requires Climbs(src, k, n) && k in InsideOf(src, id) && e.root !in InsideOf(src, id) && e.root in e.tiles
    requires forall x {:trigger x in InsideOf(src, id)} ::
               x in InsideOf(src, id) ==> x in e.tiles && e.tiles[x] == Hang(e.root, InsideOf(src, id), src.tiles[x])
    requires RootOk(src)
    ensures Rooted(e, k)
    decreases n
  {
    hide InsideOf;
    var t := src.tiles[k];
    assert e.tiles[k] == Hang(e.root, InsideOf(src, id), t);
    if t.parent.None? || t.parent.value !in InsideOf(src, id) {
      assert Climbs(e, e.root, 0);
      RootedUnder(e, k, e.root);
    } else {
      HungRooted(src, id, e, t.parent.value, n - 1);
      RootedUnder(e, k, t.parent.value);
    }
  }

  // ---- cutting a board off ----

  lemma InsideSelf(d: Doc, id: string)
    requires id in d.tiles
    ensures id in InsideOf(d, id)
  {
    InsideStep(d, id, id);
  }

  lemma {:induction false} CutRooted(d: Doc, id: string, k: string, n: nat)
    requires Valid(d) && id in d.tiles && k in d.tiles && Passes(d, k, id, n)
    ensures Rooted(CutOff(d, id), k)
    decreases n
  {
    hide Valid, Pick, Subtree;
    var cut := CutOff(d, id);
    InsideSelf(d, id);
    if k == id {
      assert Climbs(cut, k, 0);
    } else {
      var p := d.tiles[k].parent.value;
      assert Inside(d, k, id);
      PassesIn(d, p, id, n - 1);
      CutRooted(d, id, p, n - 1);
      RootedUnder(cut, k, p);
    }
  }

  lemma PassesIn(d: Doc, k: string, id: string, n: nat)
    requires id in d.tiles && Passes(d, k, id, n)
    ensures k in d.tiles
  {
  }

  lemma CutTiles(d: Doc, id: string)
    requires Valid(d) && id in d.tiles && CanRoot(d.tiles[id].kind)
    ensures var cut := CutOff(d, id); TilesOk(cut) && AllRooted(cut) && RootOk(cut) && cut.tiles.Keys == InsideOf(d, id)
  {
    hide Inside, Sound, OrderOk, Pick, Subtree, Rooted, Climbs;
    var cut := CutOff(d, id);
    InsideSelf(d, id);
    forall k | k in cut.tiles
      ensures cut.tiles[k].id == k && Sound(cut.tiles[k]) && ParentOk(cut, k) && Rooted(cut, k)
    {
      SoundParent(d.tiles[id], None);
      assert d.tiles[k].id == k && Sound(d.tiles[k]) && ParentOk(d, k);
      if k != id {
        InsideStep(d, k, id);
      }
      var n := StepsTo(d, k, id);
      CutRooted(d, id, k, n);
    }
  }

  ghost function StepsTo(d: Doc, k: string, id: string): (n: nat)
    requires Inside(d, k, id)
    ensures Passes(d, k, id, n)
  {
    var n: nat :| Passes(d, k, id, n);
    n
  }

  /** Splitting a board: both parts are valid boards; between them they hold every tile, as it
      was but for the new root's opener; and in both the tiles keep their order. */
  lemma SplitConserves(d: Doc, id: string)
    requires Valid(d) && id in d.tiles && CanRoot(d.tiles[id].kind) && id != d.root
    ensures var cut, left := CutOff(d, id), Left(d, id);
            && Valid(cut) && Valid(left)
            && cut.tiles.Keys !! left.tiles.Keys && cut.tiles.Keys + left.tiles.Keys == d.tiles.Keys
            && (forall k :: k in left.tiles ==> left.tiles[k] == d.tiles[k])
            && (forall k ::
                  k in cut.tiles ==> cut.tiles[k] == if k == id then d.tiles[k].(parent := None) else d.tiles[k])
            && left.order == Pick(d.order, cut.tiles.Keys, false)
            && Pick(cut.order, {id}, false) == Pick(Pick(d.order, cut.tiles.Keys, true), {id}, false)
  {
    hide Inside, Sound, Valid, Pick, Subtree;
    var cut, inside := CutOff(d, id), InsideOf(d, id);
    InsideSelf(d, id);
    CutValid(d, id);
    LeftValid(d, id);
    CutOrder(d, id);
    assert Subtree(d, id) == Pick(d.order, cut.tiles.Keys, true) by { SubtreeIs(d, id); }
  }

  lemma SubtreeIs(d: Doc, id: string)
    ensures Subtree(d, id) == Pick(d.order, InsideOf(d, id), true)
  {
  }

  lemma CutValid(d: Doc, id: string)
    requires Valid(d) && id in d.tiles && CanRoot(d.tiles[id].kind)
    ensures Valid(CutOff(d, id)) && CutOff(d, id).tiles.Keys == InsideOf(d, id)
  {
    hide Inside, Sound, TilesOk, AllRooted, RootOk, Pick, Subtree, InsideOf, Lists;
    var cut, inside, below := CutOff(d, id), InsideOf(d, id), Subtree(d, id);
    CutTiles(d, id);
    InsideIds(d, id);
    InsideSelf(d, id);
    var rest := Pick(below, {id}, false);
    PickOut(below, inside, id);
    OneId(id);
    InsertLists(rest, inside - {id}, 0, [id], {id});
    assert Insert(rest, 0, [id]) == cut.order && inside - {id} + {id} == inside;
  }

  lemma PickOut(s: seq<string>, all: set<string>, id: string)
    requires Lists(s, all)
    ensures Lists(Pick(s, {id}, false), all - {id})
  {
    PickLists(s, all, {id}, false);
    assert all - {id} == set k | k in all && (k in {id}) == false;
  }

  lemma OneId(id: string)
    ensures Lists([id], {id})
  {
  }

  lemma CutOrder(d: Doc, id: string)
    requires id in d.tiles
    ensures Pick(CutOff(d, id).order, {id}, false) == Pick(Subtree(d, id), {id}, false)
  {
    hide InsideOf, Subtree;
    var rest := Pick(Subtree(d, id), {id}, false);
    forall k | k in rest ensures (k in {id}) == false {
      PickHas(Subtree(d, id), {id}, false, k);
    }
    PickConcat([id], rest, {id}, false);
    PickAll(rest, {id}, false);
    PickNone([id], {id}, false);
  }

  // ---- whole bundles ----

  /** Moving a bundle to another board: no tile is lost or doubled, each is as it was but for the
      top one's opener, and what moved stands together in its old order, as does the rest. */
  lemma MoveConserves(src: Doc, id: string, dst: Doc, after: string)
    requires Valid(src) && Valid(dst) && id in src.tiles && id != src.root && InsideOf(src, id) !! dst.tiles.Keys
    ensures var moved, left, e := InsideOf(src, id), Left(src, id), Put(dst, after, Taken(src, id));
            && Valid(left) && Valid(e)
            && left.tiles.Keys == src.tiles.Keys - moved && e.tiles.Keys == dst.tiles.Keys + moved
            && (forall k :: k in left.tiles ==> left.tiles[k] == src.tiles[k])
            && (forall k :: k in dst.tiles ==> e.tiles[k] == dst.tiles[k])
            && (forall k ::
                  k in moved ==>
                    e.tiles[k] == if k == id then src.tiles[k].(parent := Some(dst.root)) else src.tiles[k])
            && left.order == Pick(src.order, moved, false) && Pick(e.order, moved, true) == Pick(src.order, moved, true)
            && Pick(e.order, moved, false) == dst.order
  {
    hide Inside, Sound, Valid, Put, Pick;
    var moved, e := InsideOf(src, id), Put(dst, after, Taken(src, id));
    LeftValid(src, id);
    PutValid(src, id, dst, after);
    InsideIds(src, id);
    PutTiles(src, id, dst, after, "");
    OrderIs(dst);
    InsertPick(dst.order, PlaceAt(dst, after), Subtree(src, id), moved);
    forall k ensures (k in e.tiles <==> k in dst.tiles || k in moved)
             ensures k in dst.tiles ==> e.tiles[k] == dst.tiles[k]
             ensures k in moved ==>
                       e.tiles[k] == if k == id then src.tiles[k].(parent := Some(dst.root)) else src.tiles[k]
    {
      PutTiles(src, id, dst, after, k);
      if k in moved {
        TopOnly(src, id, k);
      }
    }
  }

  lemma OrderIs(d: Doc)
    requires Valid(d)
    ensures forall k :: k in d.order <==> k in d.tiles
  {
  }

  /** Of a bundle only the top tile was opened by a tile outside it. */
  lemma TopOnly(d: Doc, id: string, k: string)
    requires Valid(d) && k in InsideOf(d, id)
    ensures k == id <==> d.tiles[k].parent.None? || d.tiles[k].parent.value !in InsideOf(d, id)
  {
    hide Sound, OrderOk;
    InsideStep(d, k, id);
    if k != id {
      assert ParentOk(d, k);
    } else if d.tiles[k].parent.Some? && d.tiles[k].parent.value in InsideOf(d, id) {
      var p := d.tiles[k].parent.value;
      var n := StepsTo(d, p, id);
      assert Passes(d, k, id, n + 1);
      NoCycle(d, id, n + 1);
    }
  }

  /** A whole board is the bundle of its root. */
  lemma WholeBoard(d: Doc)
    requires Valid(d)
    ensures InsideOf(d, d.root) == d.tiles.Keys && Subtree(d, d.root) == d.order
  {
    hide TilesOk, OrderOk, Climbs, Inside;
    forall k | k in d.tiles ensures Inside(d, k, d.root) {
      AllInsideRoot(d, k, DepthOf(d, k));
    }
    OrderIs(d);
    PickAll(d.order, d.tiles.Keys, true);
  }

  /** Deleting a board that was split off puts every tile back: the document is the one before
      the split again, but that the folder now hangs on the root and stands behind it. */
  lemma Rejoin(d: Doc, id: string)
    requires Valid(d) && id in d.tiles && CanRoot(d.tiles[id].kind) && id != d.root
    ensures var cut, left := CutOff(d, id), Left(d, id);
            && Valid(cut)
            && var e := Put(left, "", Taken(cut, cut.root));
            && Valid(e) && e.root == d.root && e.tiles.Keys == d.tiles.Keys
            && (forall k ::
                  k in d.tiles ==> e.tiles[k] == if k == id then d.tiles[k].(parent := Some(d.root)) else d.tiles[k])
            && left.order != [] && e.order == [d.root] + cut.order + left.order[1..]
  {
    hide Inside, Sound, Pick, Valid;
    var cut, left := CutOff(d, id), Left(d, id);
    SplitConserves(d, id);
    WholeBoard(cut);
    var e := Put(left, "", Taken(cut, cut.root));
    PutValid(cut, cut.root, left, "");
    forall k ensures (k in e.tiles <==> k in d.tiles)
             ensures k in d.tiles ==> e.tiles[k] == if k == id then d.tiles[k].(parent := Some(d.root)) else d.tiles[k]
    {
      PutTiles(cut, cut.root, left, "", k);
      if k in cut.tiles {
        TopOnly(cut, cut.root, k);
      }
    }
    PutTiles(cut, cut.root, left, "", "");
    BehindRoot(left, cut.order);
  }

  lemma BehindRoot(d: Doc, ids: seq<string>)
    requires Valid(d)
    ensures Insert(d.order, PlaceAt(d, ""), ids) == [d.root] + ids + d.order[1..]
  {
    assert d.order[0] == d.root;
    assert IndexOf(d.order, d.root) == 0;
    assert d.order[..1] == [d.root] || d.root == "";
    assert TilesOk(d) && d.tiles[d.root].id == d.root;
  }

  /** Moving one tile about on its own board keeps the board valid and its tiles as they are. */
  lemma ShiftValid(d: Doc, id: string, after: string)
    requires Valid(d) && id in d.tiles && id != d.root
    ensures var e := Place(d.(order := Pick(d.order, {id}, false)), after, [id]);
            && Valid(e) && e.tiles == d.tiles && Pick(e.order, {id}, false) == Pick(d.order, {id}, false)
  {
    hide TilesOk, AllRooted, RootOk;
    var o := Pick(d.order, {id}, false);
    var e := Place(d.(order := o), after, [id]);
    PickOut(d.order, d.tiles.Keys, id);
    PickFirst(d.order, {id}, false);
    InsertLists(o, d.tiles.Keys - {id}, PlaceAt(d.(order := o), after), [id], {id});
    assert d.tiles.Keys - {id} + {id} == d.tiles.Keys;
    InsertPick(o, PlaceAt(d.(order := o), after), [id], {id});
    SameTilesValid(d, e);
  }

  lemma SameTilesValid(d: Doc, e: Doc)
    requires Valid(d) && e.tiles == d.tiles && e.root == d.root && OrderOk(e)
    ensures Valid(e)
  {
    hide Sound, OrderOk, Climbs;
    assert forall x :: x in d.tiles ==> ParentOk(d, x);
    RootedKept(d, e, d.tiles.Keys);
    forall k | k in e.tiles ensures ParentOk(e, k) {
      assert ParentOk(d, k);
    }
  }

  // ---- the server's own fields ----

  /** The same tiles but for what the server writes itself: `uid` of folders, `shownAt`, `bound`. */
  ghost predicate SameBut(d: Doc, e: Doc) {
    && e.root == d.root && e.order == d.order && e.tiles.Keys == d.tiles.Keys
    && forall k {:trigger e.tiles[k]} :: k in d.tiles ==>
         e.tiles[k] == d.tiles[k].(uid := e.tiles[k].uid, shownAt := e.tiles[k].shownAt, bound := e.tiles[k].bound)
         && (!d.tiles[k].kind.Folder? ==> e.tiles[k].uid == d.tiles[k].uid)
  }

  lemma SameButHung(d: Doc, mid: Doc, e: Doc, opener: string, id: string)
    requires HungOn(d, mid, opener, id) && SameBut(mid, e)
    ensures HungOn(d, e, opener, id)
  {
  }

  lemma SameButValid(d: Doc, e: Doc)
    requires Valid(d) && SameBut(d, e)
    ensures Valid(e)
  {
    hide Climbs, Sound, OrderOk, Rooted;
    assert SameChains(d, e, d.tiles.Keys) by {
      forall x | x in d.tiles ensures ParentOk(d, x) && e.tiles[x].parent == d.tiles[x].parent {
      }
    }
    RootedKept(d, e, d.tiles.Keys);
    SameOrder(d, e);
    forall k | k in e.tiles ensures e.tiles[k].id == k && Sound(e.tiles[k]) && ParentOk(e, k) {
      assert d.tiles[k].id == k && Sound(d.tiles[k]) && ParentOk(d, k);
      SoundSameBut(d.tiles[k], e.tiles[k]);
      if d.tiles[k].parent.Some? {
        assert e.tiles[d.tiles[k].parent.value].kind == d.tiles[d.tiles[k].parent.value].kind;
      }
    }
  }

  lemma SameOrder(d: Doc, e: Doc)
    requires OrderOk(d) && e.root == d.root && e.order == d.order && e.tiles.Keys == d.tiles.Keys
    ensures OrderOk(e)
  {
  }

  lemma SoundSameBut(t: Tile, u: Tile)
    requires Sound(t) && u == t.(uid := u.uid, shownAt := u.shownAt, bound := u.bound)
             && (!t.kind.Folder? ==> u.uid == t.uid)
    ensures Sound(u)
  {
  }

  lemma KeepMetaSameBut(d: Doc, stored: Doc)
    ensures SameBut(d, KeepMeta(d, stored))
  {
  }
}
