/** What a valid board is, told without the checks that decide it. */
module ValidBoards {
  import opened Sequences
  import opened Wrappers
  import opened TileDocs

  /** One tile by itself: its size, what its kind may hold, and at most twenty places visited. */
  lemma SoundExactly(t: Tile)
    ensures Sound(t) <==>
              && t.id != "" && t.w in {0.5, 1.0} && t.h in {0.5, 1.0} && |t.back| + |t.fwd| <= 20
              && (t.minimized || t.shortcutsOff ==> t.kind == Terminal)
              && (t.instance != "" || t.path != "" ==> t.kind == Device || t.kind == Viewer)
              && match t.kind
                 case Folder => true
                 case Terminal => t.uid != ""
                 case Device => t.node != None && '#' in t.instance && t.uid == ""
                 case Viewer => t.node != None && '#' in t.instance && t.path != "" && t.uid == ""
                 case Unknown(_) => false
  {
  }

  /** A way up from tile to opener. */
  ghost predicate WayUp(d: Doc, k: string, way: seq<string>) {
    && way != [] && way[0] == k && way[|way| - 1] == d.root
    && (forall i {:trigger way[i]} :: 0 <= i < |way| ==> way[i] in d.tiles)
    && forall i {:trigger way[i]} :: 0 <= i < |way| - 1 ==> d.tiles[way[i]].parent == Some(way[i + 1])
  }

  lemma {:induction false} ClimbIsWay(d: Doc, k: string, n: nat) returns (way: seq<string>)
    requires Climbs(d, k, n)
    ensures WayUp(d, k, way)
    decreases n
  {
    if n == 0 {
      way := [k];
    } else {
      var rest := ClimbIsWay(d, d.tiles[k].parent.value, n - 1);
      way := [k] + rest;
      forall i {:trigger way[i]} | 0 <= i < |way| - 1
        ensures d.tiles[way[i]].parent == Some(way[i + 1]) && way[i] in d.tiles
      {
        if i > 0 {
          assert way[i] == rest[i - 1] && way[i + 1] == rest[i];
        }
      }
    }
  }

  lemma {:induction false} WayIsClimb(d: Doc, k: string, way: seq<string>) returns (n: nat)
    requires WayUp(d, k, way) && d.root in d.tiles && d.tiles[d.root].parent == None
    ensures Climbs(d, k, n)
    decreases |way|
  {
    if |way| == 1 {
      n := 0;
    } else {
      var rest := way[1..];
      assert forall i :: 0 <= i < |rest| ==> rest[i] == way[i + 1];
      n := WayIsClimb(d, way[1], rest);
      n := n + 1;
    }
  }

  /** A board is valid exactly if its root is a folder or a device that nothing opened; the order names
      every tile once, the root first; every tile is sound by itself under its own id; and every tile
      but the root was opened by a folder or a device that is there, up to the root. */
  lemma ValidExactly(d: Doc)
    ensures Valid(d) <==>
              && d.root in d.tiles && d.tiles[d.root].parent == None && d.tiles[d.root].kind in {Folder, Device}
              && d.order != [] && d.order[0] == d.root && NoDup(d.order) && SetOf(d.order) == d.tiles.Keys
              && (forall k {:trigger d.tiles[k]} :: k in d.tiles ==>
                    && d.tiles[k].id == k && Sound(d.tiles[k])
                    && (d.tiles[k].parent == None ==> k == d.root)
                    && (d.tiles[k].parent != None ==> d.tiles[k].parent.value in d.tiles
                                                      && d.tiles[d.tiles[k].parent.value].kind in {Folder, Device})
                    && exists way :: WayUp(d, k, way))
  {
    hide Sound, TilesOk, OrderOk, AllRooted, WayUp;
    OrderExactly(d);
    TilesExactly(d);
    if d.root in d.tiles && d.tiles[d.root].parent == None {
      RootedExactly(d);
    }
  }

  lemma TilesExactly(d: Doc)
    ensures TilesOk(d) <==>
              forall k {:trigger d.tiles[k]} :: k in d.tiles ==>
                && d.tiles[k].id == k && Sound(d.tiles[k])
                && (d.tiles[k].parent == None ==> k == d.root)
                && (d.tiles[k].parent != None ==> d.tiles[k].parent.value in d.tiles
                                                  && d.tiles[d.tiles[k].parent.value].kind in {Folder, Device})
  {
    hide Sound;
  }

  lemma OrderExactly(d: Doc)
    ensures OrderOk(d) <==> d.order != [] && d.order[0] == d.root && NoDup(d.order) && SetOf(d.order) == d.tiles.Keys
  {
  }

  lemma RootedExactly(d: Doc)
    requires d.root in d.tiles && d.tiles[d.root].parent == None
    ensures AllRooted(d) <==> forall k :: k in d.tiles ==> exists way :: WayUp(d, k, way)
  {
    hide WayUp, Climbs;
    if AllRooted(d) {
      forall k | k in d.tiles ensures exists way :: WayUp(d, k, way) {
        assert Rooted(d, k);
        var n: nat :| Climbs(d, k, n);
        var way := ClimbIsWay(d, k, n);
      }
    }
    if forall k :: k in d.tiles ==> exists way :: WayUp(d, k, way) {
      forall k | k in d.tiles ensures Rooted(d, k) {
        var way :| WayUp(d, k, way);
        var n := WayIsClimb(d, k, way);
      }
    }
  }
}
