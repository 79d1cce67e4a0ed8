/** The document of one board: a tree of tiles by the tile that opened each, and beside it the
    order on the screen, which has nothing to do with the tree except that the root comes first. */
module TileDocs {
  import opened Sequences
  import opened Wrappers

  const HISTORY_MAX := 20

  /** `tileKinds`: what a tile can do is asked of its kind; any other type string is unknown. */
  datatype Kind = Folder | Terminal | Device | Viewer | Unknown(name: string)

  predicate CanRoot(k: Kind) { k.Folder? || k.Device? }

  predicate CanParent(k: Kind) { k.Folder? || k.Device? }

  predicate HoldsProc(k: Kind) { k.Terminal? }

  datatype Tile = Tile(id: string, kind: Kind, parent: Option<string>, w: real, h: real, node: Option<int>, uid: string,
                       minimized: bool, shortcutsOff: bool, shownAt: int, bound: bool, instance: string, path: string,
                       back: seq<string>, fwd: seq<string>)

  datatype Doc = Doc(root: string, order: seq<string>, tiles: map<string, Tile>)

  predicate ValidSpan(v: real) { v == 0.5 || v == 1.0 }

  predicate FieldsOk(t: Tile) {
    match t.kind
    case Folder => t.instance == "" && t.path == ""
    case Terminal => t.uid != "" && t.instance == "" && t.path == ""
    case Device => t.node.Some? && '#' in t.instance && t.uid == ""
    case Viewer => t.node.Some? && '#' in t.instance && t.path != "" && t.uid == ""
    case Unknown(_) => false
  }

  /** What is asked of one tile by itself. */
  predicate Sound(t: Tile) {
    && t.id != "" && ValidSpan(t.w) && ValidSpan(t.h)
    && (!HoldsProc(t.kind) ==> !t.minimized && !t.shortcutsOff)
    && |t.back| + |t.fwd| <= HISTORY_MAX && FieldsOk(t)
  }

  predicate ParentOk(d: Doc, k: string)
    requires k in d.tiles
  {
    match d.tiles[k].parent
    case None => k == d.root
    case Some(p) => p in d.tiles && CanParent(d.tiles[p].kind)
  }

  /** The order names every tile once. */
  ghost predicate Lists(order: seq<string>, ids: set<string>) { NoDup(order) && forall k :: k in order <==> k in ids }

  /** The chain of openers leads from `k` to the root in `n` steps. */
  predicate Climbs(d: Doc, k: string, n: nat)
    decreases n
  {
    && k in d.tiles
    && if n == 0 then k == d.root
       else k != d.root && d.tiles[k].parent.Some? && Climbs(d, d.tiles[k].parent.value, n - 1)
  }

  ghost predicate Rooted(d: Doc, k: string) { exists n: nat :: Climbs(d, k, n) }

  predicate RootOk(d: Doc) { d.root in d.tiles && d.tiles[d.root].parent.None? && CanRoot(d.tiles[d.root].kind) }

  ghost predicate OrderOk(d: Doc) { Lists(d.order, d.tiles.Keys) && d.order != [] && d.order[0] == d.root }

  predicate TilesOk(d: Doc) {
    forall k {:trigger d.tiles[k]} :: k in d.tiles ==> d.tiles[k].id == k && Sound(d.tiles[k]) && ParentOk(d, k)
  }

  ghost predicate AllRooted(d: Doc) { forall k :: k in d.tiles ==> Rooted(d, k) }

  ghost predicate Valid(d: Doc) { RootOk(d) && OrderOk(d) && TilesOk(d) && AllRooted(d) }

  /** The chain of openers leads from `k` to `id` in `n` steps. */
  predicate Passes(d: Doc, k: string, id: string, n: nat)
    decreases n
  {
    if n == 0 then k == id else k in d.tiles && d.tiles[k].parent.Some? && Passes(d, d.tiles[k].parent.value, id, n - 1)
  }

  ghost predicate Inside(d: Doc, k: string, id: string) { exists n: nat :: Passes(d, k, id, n) }

  ghost function InsideOf(d: Doc, id: string): set<string> { set k | k in d.tiles && Inside(d, k, id) }

  // ---- lists ----

  /** `slices.DeleteFunc` by membership in a set. */
  function Pick(s: seq<string>, ids: set<string>, keep: bool): seq<string> {
    if s == [] then []
    else Pick(s[..|s| - 1], ids, keep) + if (s[|s| - 1] in ids) == keep then [s[|s| - 1]] else []
  }

  /** `slices.Index`. */
  function IndexOf(s: seq<string>, k: string): (i: int)
    ensures -1 <= i < |s|
    ensures i >= 0 ==> s[i] == k
    ensures i < 0 <==> k !in s
  {
    if s == [] then -1 else if s[0] == k then 0 else var i := IndexOf(s[1..], k); if i < 0 then -1 else i + 1
  }

  function Insert(s: seq<string>, at: nat, ids: seq<string>): seq<string>
    requires at <= |s|
  {
    s[..at] + ids + s[at..]
  }

  // ---- what the operations make of a document ----

  function Opener(d: Doc, opener: string): string {
    if opener in d.tiles && CanParent(d.tiles[opener].kind) then opener else d.root
  }

  /** `openTile`: right behind its opener, or behind the root. */
  function Open(d: Doc, opener: string, t: Tile): Doc {
    var p := Opener(d, opener);
    Doc(d.root, Insert(d.order, IndexOf(d.order, p) + 1, [t.id]), d.tiles[t.id := t.(parent := Some(p))])
  }

  function Lifted(t: Tile, id: string, up: Option<string>): Tile {
    if t.parent == Some(id) then t.(parent := up) else t
  }

  /** `remove`: what the tile opened moves up one step. */
  function Remove(d: Doc, id: string): Doc
    requires id in d.tiles
  {
    var up := d.tiles[id].parent;
    Doc(d.root, Pick(d.order, {id}, false),
        map k | k in d.tiles && k != id :: Lifted(d.tiles[k], id, up))
  }

  /** `subtree`, in the order of the screen. */
  ghost function Subtree(d: Doc, id: string): seq<string> { Pick(d.order, InsideOf(d, id), true) }

  /** `placeAfter`: behind the root for "", at the end for a tile that is not there. */
  function PlaceAt(d: Doc, after: string): (at: nat)
    ensures at <= |d.order|
  {
    var i := IndexOf(d.order, if after == "" then d.root else after);
    if i >= 0 then i + 1 else |d.order|
  }

  function Place(d: Doc, after: string, ids: seq<string>): Doc { d.(order := Insert(d.order, PlaceAt(d, after), ids)) }

  function TilesOf(d: Doc, ids: seq<string>): seq<Tile>
    requires forall k :: k in ids ==> k in d.tiles
  {
    seq(|ids|, i requires 0 <= i < |ids| => d.tiles[ids[i]])
  }

  /** `takeOpened`: the tiles taken, and the document left. */
  ghost function Left(d: Doc, id: string): Doc {
    var rest := d.tiles - InsideOf(d, id);
    Doc(d.root, Pick(d.order, rest.Keys, true), rest)
  }

  function Ids(items: seq<Tile>): seq<string> { seq(|items|, i requires 0 <= i < |items| => items[i].id) }

  function IdSet(items: seq<Tile>): set<string> { set t | t in items :: t.id }

  function Hang(root: string, inside: set<string>, t: Tile): Tile {
    if t.parent.None? || t.parent.value !in inside then t.(parent := Some(root)) else t
  }

  function PutAll(tiles: map<string, Tile>, root: string, inside: set<string>, items: seq<Tile>): map<string, Tile> {
    if items == [] then tiles
    else
      var t := items[|items| - 1];
      PutAll(tiles, root, inside, items[..|items| - 1])[t.id := Hang(root, inside, t)]
  }

  /** `putOpened`. */
  function Put(d: Doc, after: string, items: seq<Tile>): Doc {
    Place(d.(tiles := PutAll(d.tiles, d.root, IdSet(items), items)), after, Ids(items))
  }

  /** `detachFolder`: the board cut off, and the board left. */
  ghost function CutOff(d: Doc, id: string): Doc
    requires id in d.tiles
  {
    var inside := InsideOf(d, id);
    Doc(id, [id] + Pick(Subtree(d, id), {id}, false),
        (map k | k in d.tiles && k in inside :: d.tiles[k])[id := d.tiles[id].(parent := None)])
  }

  // ---- checks of a document sent by a browser against the stored one ----

  /** `keepFolderMeta`: the server's own fields come from the stored tile. */
  function KeptMeta(t: Tile, stored: map<string, Tile>, k: string): Tile {
    if !t.kind.Folder? then t.(shownAt := 0, bound := false)
    else if k in stored && stored[k].kind.Folder? then
      if stored[k].node == t.node then t.(uid := stored[k].uid, shownAt := stored[k].shownAt, bound := stored[k].bound)
      else t.(uid := stored[k].uid, shownAt := 0, bound := false)
    else t.(uid := "", shownAt := 0, bound := false)
  }

  function KeepMeta(d: Doc, stored: Doc): Doc {
    d.(tiles := map k | k in d.tiles :: KeptMeta(d.tiles[k], stored.tiles, k))
  }

  predicate SameProc(s: Tile, t: Tile) { HoldsProc(s.kind) && HoldsProc(t.kind) && s.uid == t.uid }

  /** Every terminal was there before, and none is there twice. */
  predicate TerminalsOk(next: Doc, stored: Doc) {
    && (forall k :: k in next.tiles && HoldsProc(next.tiles[k].kind) ==>
          exists s :: s in stored.tiles && SameProc(stored.tiles[s], next.tiles[k]))
    && (forall k, m :: k in next.tiles && m in next.tiles && SameProc(next.tiles[k], next.tiles[m]) ==> k == m)
  }

  /** Some tile of the document shows the process. */
  predicate ShowsProc(d: Doc, uid: string) {
    exists k :: k in d.tiles && HoldsProc(d.tiles[k].kind) && d.tiles[k].uid == uid
  }

  predicate IsVideoTile(t: Tile, video: string -> bool) { t.kind.Viewer? && video(t.path) }

  /** Every video tile was there before, with the same id and file. */
  predicate VideosOk(next: Doc, stored: Doc, video: string -> bool) {
    forall k :: k in next.tiles && IsVideoTile(next.tiles[k], video) ==>
      k in stored.tiles && stored.tiles[k].kind.Viewer? && stored.tiles[k].instance == next.tiles[k].instance
      && stored.tiles[k].path == next.tiles[k].path
  }

  // ---- about lists ----

  lemma {:induction false} PickHas(s: seq<string>, ids: set<string>, keep: bool, k: string)
    ensures k in Pick(s, ids, keep) <==> k in s && (k in ids) == keep
  {
    if s != [] {
      PickHas(s[..|s| - 1], ids, keep, k);
      assert s == s[..|s| - 1] + [s[|s| - 1]];
    }
  }

  lemma {:induction false} PickNoDup(s: seq<string>, ids: set<string>, keep: bool)
    requires NoDup(s)
    ensures NoDup(Pick(s, ids, keep))
  {
    if s != [] {
      var front, last := s[..|s| - 1], s[|s| - 1];
      PickNoDup(front, ids, keep);
      PickHas(front, ids, keep, last);
    }
  }

  lemma PickLists(s: seq<string>, all: set<string>, ids: set<string>, keep: bool)
    requires Lists(s, all)
    ensures Lists(Pick(s, ids, keep), set k | k in all && (k in ids) == keep)
  {
    PickNoDup(s, ids, keep);
    forall k ensures k in Pick(s, ids, keep) <==> k in all && (k in ids) == keep {
      PickHas(s, ids, keep, k);
    }
  }

  /** A first element that is kept stays first. */
  lemma {:induction false} PickFirst(s: seq<string>, ids: set<string>, keep: bool)
    requires s != [] && (s[0] in ids) == keep
    ensures Pick(s, ids, keep) != [] && Pick(s, ids, keep)[0] == s[0]
  {
    if |s| > 1 {
      PickFirst(s[..|s| - 1], ids, keep);
    }
  }

  lemma {:induction false} PickConcat(a: seq<string>, b: seq<string>, ids: set<string>, keep: bool)
    ensures Pick(a + b, ids, keep) == Pick(a, ids, keep) + Pick(b, ids, keep)
  {
    if b == [] {
      assert a + b == a;
    } else {
      PickConcat(a, b[..|b| - 1], ids, keep);
      assert (a + b)[..|a + b| - 1] == a + b[..|b| - 1];
    }
  }

  lemma {:induction false} PickAll(s: seq<string>, ids: set<string>, keep: bool)
    requires forall k :: k in s ==> (k in ids) == keep
    ensures Pick(s, ids, keep) == s
  {
    if s != [] {
      var front, last := s[..|s| - 1], s[|s| - 1];
      assert s == front + [last] && last in s;
      PickAll(front, ids, keep);
    }
  }

  lemma {:induction false} PickNone(s: seq<string>, ids: set<string>, keep: bool)
    requires forall k :: k in s ==> (k in ids) != keep
    ensures Pick(s, ids, keep) == []
  {
    if s != [] {
      PickNone(s[..|s| - 1], ids, keep);
    }
  }

  lemma InsertLists(s: seq<string>, all: set<string>, at: nat, ids: seq<string>, more: set<string>)
    requires Lists(s, all) && Lists(ids, more) && all !! more && at <= |s|
    ensures Lists(Insert(s, at, ids), all + more)
  {
    var r := Insert(s, at, ids);
    forall i, j | 0 <= i < j < |r| ensures r[i] != r[j] {
      var n := |ids|;
      assert i < at ==> r[i] == s[i];
      assert at <= i < at + n ==> r[i] == ids[i - at] && r[i] in ids;
      assert at + n <= i ==> r[i] == s[i - n];
      assert j < at ==> r[j] == s[j];
      assert at <= j < at + n ==> r[j] == ids[j - at] && r[j] in ids;
      assert at + n <= j ==> r[j] == s[j - n];
      assert !(at <= i < at + n) ==> r[i] in s;
      assert !(at <= j < at + n) ==> r[j] in s;
    }
    assert s == s[..at] + s[at..];
  }

  /** Taking the inserted ones out again gives the two lists back. */
  lemma InsertPick(s: seq<string>, at: nat, ids: seq<string>, more: set<string>)
    requires at <= |s| && (forall k :: k in ids ==> k in more) && (forall k :: k in s ==> k !in more)
    ensures Pick(Insert(s, at, ids), more, true) == ids && Pick(Insert(s, at, ids), more, false) == s
  {
    assert s == s[..at] + s[at..];
    PickConcat(s[..at], ids, more, true);
    PickConcat(s[..at] + ids, s[at..], more, true);
    PickConcat(s[..at], ids, more, false);
    PickConcat(s[..at] + ids, s[at..], more, false);
    PickAll(ids, more, true);
    PickNone(ids, more, false);
    PickAll(s[..at], more, false);
    PickAll(s[at..], more, false);
    PickNone(s[..at], more, true);
    PickNone(s[at..], more, true);
  }

  lemma ListsSize(s: seq<string>, ids: set<string>)
    requires Lists(s, ids)
    ensures |s| == |ids|
    decreases |s|
  {
    if s == [] {
      assert ids == {};
    } else {
      var front, last := s[..|s| - 1], s[|s| - 1];
      assert s == front + [last];
      ListsSize(front, ids - {last});
    }
  }

  /** As many distinct names as there are tiles, all of tiles, name all tiles. */
  lemma ListsBySize(s: seq<string>, ids: set<string>)
    requires NoDup(s) && |s| == |ids| && forall k :: k in s ==> k in ids
    ensures Lists(s, ids)
    decreases |s|
  {
    if s != [] {
      var front, last := s[..|s| - 1], s[|s| - 1];
      assert s == front + [last];
      assert last in s;
      forall k | k in front ensures k in ids - {last} {
        assert k in s;
      }
      ListsBySize(front, ids - {last});
    } else {
      assert ids == {};
    }
  }

  // ---- about the tree ----

  lemma {:induction false} DepthUnique(d: Doc, k: string, n: nat, m: nat)
    requires Climbs(d, k, n) && Climbs(d, k, m)
    ensures n == m
    decreases n
  {
    if n > 0 && m > 0 {
      DepthUnique(d, d.tiles[k].parent.value, n - 1, m - 1);
    }
  }

  /** A chain that reaches the root has no tile twice, so the bound the check uses is no bound. */
  lemma {:induction false} ChainIsShort(d: Doc, k: string, n: nat) returns (on: set<string>)
    requires Climbs(d, k, n)
    ensures on <= d.tiles.Keys && |on| == n + 1
    ensures forall x :: x in on ==> ClimbsWithin(d, x, n)
    ensures n < |d.tiles|
    decreases n
  {
    if n == 0 {
      on := {k};
      assert ClimbsWithin(d, k, 0);
    } else {
      var up := ChainIsShort(d, d.tiles[k].parent.value, n - 1);
      if k in up {
        var m: nat :| m <= n - 1 && Climbs(d, k, m);
        DepthUnique(d, k, n, m);
      }
      on := up + {k};
    }
    SubsetSize(on, d.tiles.Keys);
  }

  predicate ClimbsWithin(d: Doc, k: string, n: nat) { exists m: nat :: m <= n && Climbs(d, k, m) }

  /** From a tile under `id` the chain first reaches `id`. */
  lemma {:induction false} PassesDepth(d: Doc, k: string, id: string, n: nat, m: nat)
    requires Passes(d, k, id, n) && Climbs(d, id, m) && RootOk(d)
    ensures Climbs(d, k, m + n)
    decreases n
  {
    if n > 0 {
      PassesDepth(d, d.tiles[k].parent.value, id, n - 1, m);
    }
  }

  /** No tile is its own opener, however long the way around. */
  lemma NoCycle(d: Doc, id: string, n: nat)
    requires Valid(d) && id in d.tiles && Passes(d, id, id, n)
    ensures n == 0
  {
    assert Rooted(d, id);
    var m: nat :| Climbs(d, id, m);
    PassesDepth(d, id, id, n, m);
    DepthUnique(d, id, m, m + n);
  }

  lemma InsideStep(d: Doc, k: string, id: string)
    requires k in d.tiles
    ensures Inside(d, k, id) <==> k == id || (d.tiles[k].parent.Some? && Inside(d, d.tiles[k].parent.value, id))
  {
    if k == id {
      assert Passes(d, k, id, 0);
    } else {
      if n: nat :| Passes(d, k, id, n) {
        assert Passes(d, d.tiles[k].parent.value, id, n - 1);
      }
      if d.tiles[k].parent.Some? && Inside(d, d.tiles[k].parent.value, id) {
        var n: nat :| Passes(d, d.tiles[k].parent.value, id, n);
        assert Passes(d, k, id, n + 1);
      }
    }
  }

  lemma {:induction false} AllInsideRoot(d: Doc, k: string, n: nat)
    requires Climbs(d, k, n)
    ensures Inside(d, k, d.root)
    decreases n
  {
    if n > 0 {
      AllInsideRoot(d, d.tiles[k].parent.value, n - 1);
    }
    InsideStep(d, k, d.root);
  }

  /** The root is under no other tile. */
  lemma RootOutside(d: Doc, id: string)
    requires Valid(d) && id != d.root
    ensures !Inside(d, d.root, id)
  {
    InsideStep(d, d.root, id);
  }
}
