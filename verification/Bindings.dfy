/** Which folder tile receives a terminal, and which one the map of pins names for a node. */
module Bindings {
  import opened Wrappers
  import opened TileDocs

  /** A folder tile and the board it is on, by its place among the boards. */
  datatype Spot = Spot(at: nat, tile: Tile)

  datatype Pin = Pin(node: int, hash: string, tileId: string)

  predicate BetterBinding(t: Tile, best: Tile) {
    (t.bound && !best.bound) || (t.bound == best.bound && t.shownAt < best.shownAt)
  }

  predicate ShowsNode(t: Tile) { t.kind.Folder? && t.node.Some? }

  /** The folder tiles showing a node, in the order of the screen. */
  function FolderList(order: seq<string>, tiles: map<string, Tile>): seq<Tile> {
    if order == [] then []
    else
      var k := order[|order| - 1];
      FolderList(order[..|order| - 1], tiles) + if k in tiles && ShowsNode(tiles[k]) then [tiles[k]] else []
  }

  function SpotsOf(at: nat, ts: seq<Tile>): seq<Spot> {
    if ts == [] then [] else SpotsOf(at, ts[..|ts| - 1]) + [Spot(at, ts[|ts| - 1])]
  }

  /** All of them, board after board. */
  function AllSpots(docs: seq<Doc>): seq<Spot> {
    if docs == [] then []
    else
      var d := docs[|docs| - 1];
      AllSpots(docs[..|docs| - 1]) + SpotsOf(|docs| - 1, FolderList(d.order, d.tiles))
  }

  function Of(spots: seq<Spot>, node: int): seq<Spot> {
    if spots == [] then []
    else
      var last := spots[|spots| - 1];
      Of(spots[..|spots| - 1], node) + if last.tile.node == Some(node) then [last] else []
  }

  function Best(spots: seq<Spot>): Spot
    requires spots != []
  {
    var last := spots[|spots| - 1];
    if |spots| == 1 then last
    else
      var best := Best(spots[..|spots| - 1]);
      if BetterBinding(last.tile, best.tile) then last else best
  }

  /** The nodes, each once, in the order they are first shown. */
  function Nodes(spots: seq<Spot>): seq<int> {
    if spots == [] then []
    else
      var r, node := Nodes(spots[..|spots| - 1]), spots[|spots| - 1].tile.node;
      if node.None? || node.value in r then r else r + [node.value]
  }

  /** The running candidates of `pinsOf`: where the best tile is, how many there are, and it. */
  type Cands = map<int, (nat, nat, Tile)>

  function Counting(cands: Cands, s: Spot, node: int): Cands {
    cands[node := if node !in cands then (s.at, 1, s.tile)
                  else if BetterBinding(s.tile, cands[node].2) then (s.at, cands[node].1 + 1, s.tile)
                  else (cands[node].0, cands[node].1 + 1, cands[node].2)]
  }

  /** `docs` are the stored boards, `hashes` their names. */
  class Binder {
    const hashes: seq<string>
    const docs: seq<Doc>

    constructor (hashes: seq<string>, docs: seq<Doc>)
      requires |hashes| == |docs|
      ensures this.hashes == hashes && this.docs == docs
    {
      this.hashes, this.docs := hashes, docs;
    }

    method FolderTiles(i: nat) returns (out: seq<Tile>)
      requires i < |docs|
      ensures out == FolderList(docs[i].order, docs[i].tiles)
    {
      out := [];
      var order := docs[i].order;
      for n := 0 to |order|
        invariant out == FolderList(order[..n], docs[i].tiles)
      {
        assert order[..n + 1][..n] == order[..n];
        if order[n] in docs[i].tiles {
          var t := docs[i].tiles[order[n]];
          if t.kind.Folder? && t.node.Some? {
            out := out + [t];
          }
        }
      }
      assert order[..|order|] == order;
    }

    /** The loops of `bindingTile` for one ancestor. */
    method BestFor(node: int) returns (best: Option<Spot>)
      ensures best == if Of(AllSpots(docs), node) == [] then None else Some(Best(Of(AllSpots(docs), node)))
    {
      best := None;
      for i := 0 to |docs|
        invariant best == Choice(AllSpots(docs[..i]), node)
      {
        assert docs[..i + 1][..i] == docs[..i];
        best := BestOf(i, node, best, AllSpots(docs[..i]));
      }
      assert docs[..|docs|] == docs;
    }

    method BestOf(i: nat, node: int, best0: Option<Spot>, ghost before: seq<Spot>) returns (best: Option<Spot>)
      requires i < |docs| && best0 == Choice(before, node)
      ensures best == Choice(before + SpotsOf(i, FolderList(docs[i].order, docs[i].tiles)), node)
    {
      hide Choice;
      best := best0;
      var ts := FolderTiles(i);
      assert SpotsOf(i, ts[..0]) == [] && before + [] == before;
      for n := 0 to |ts|
        invariant best == Choice(before + SpotsOf(i, ts[..n]), node)
      {
        ghost var spots := before + SpotsOf(i, ts[..n]);
        assert ts[..n + 1][..n] == ts[..n];
        assert before + SpotsOf(i, ts[..n + 1]) == spots + [Spot(i, ts[n])];
        NextChoice(spots, Spot(i, ts[n]), node);
        if ts[n].node == Some(node) {
          if best.None? || BetterBinding(ts[n], best.value.tile) {
            best := Some(Spot(i, ts[n]));
          }
        }
      }
      assert ts[..|ts|] == ts;
    }

    /** `bindingTile`: the nearest ancestor that has a tile decides. */
    method BindingTile(ancestors: seq<int>) returns (best: Option<Spot>)
      ensures best.None? ==> forall a, i: nat, n: nat :: a in ancestors ==> !FolderAt(docs, i, n, a)
      ensures best.Some? ==> exists k, i: nat, n: nat {:trigger FirstChoice(docs, ancestors[k], i, n)} ::
                && 0 <= k < |ancestors| && FirstChoice(docs, ancestors[k], i, n)
                && best.value == Spot(i, TileAt(docs, i, n)) && NoneShown(docs, ancestors[..k])
      ensures best.None? ==> forall a :: a in ancestors ==> Of(AllSpots(docs), a) == []
      ensures best.Some? ==>
                exists k ::
                  0 <= k < |ancestors| && Of(AllSpots(docs), ancestors[k]) != []
                  && best.value == Best(Of(AllSpots(docs), ancestors[k]))
                                         && forall j :: 0 <= j < k ==> Of(AllSpots(docs), ancestors[j]) == []
    {
      hide *;
      best := None;
      for k := 0 to |ancestors|
        invariant best.None? && forall j :: 0 <= j < k ==> Of(AllSpots(docs), ancestors[j]) == []
      {
        best := BestFor(ancestors[k]);
        if best.Some? {
          ChosenFirst(docs, ancestors, k);
          return;
        }
      }
      AllNotShown(docs, ancestors);
    }

    /** `pinsOf`: one pass over all tiles, keeping for each node the best and the count. */
    method PinsOf() returns (out: seq<Pin>)
      requires |hashes| == |docs|
      ensures out == PinList(AllSpots(docs), hashes, Nodes(AllSpots(docs)))
      ensures forall p :: p in out <==> IsPinned(docs, hashes, p)
    {
      hide Counted, Nodes, PinList;
      forall p ensures p in PinList(AllSpots(docs), hashes, Nodes(AllSpots(docs))) <==> IsPinned(docs, hashes, p) {
        PinnedIs(docs, hashes, p);
      }
      hide IsPinned;
      var cands: Cands := map[];
      var order: seq<int> := [];
      NoneCounted();
      for i := 0 to |docs|
        invariant Counted(cands, order, AllSpots(docs[..i]))
      {
        assert docs[..i + 1][..i] == docs[..i];
        cands, order := CountBoard(i, cands, order, AllSpots(docs[..i]));
      }
      assert docs[..|docs|] == docs;
      out := Listed(cands, order);
    }

    method CountBoard(i: nat, cands0: Cands, order0: seq<int>, ghost before: seq<Spot>)
      returns (cands: Cands, order: seq<int>)
      requires i < |docs| && Counted(cands0, order0, before)
      ensures Counted(cands, order, before + SpotsOf(i, FolderList(docs[i].order, docs[i].tiles)))
    {
      hide Counted;
      cands, order := cands0, order0;
      var ts := FolderTiles(i);
      assert SpotsOf(i, ts[..0]) == [] && before + [] == before;
      for n := 0 to |ts|
        invariant Counted(cands, order, before + SpotsOf(i, ts[..n]))
      {
        FoldersShow(docs[i].order, docs[i].tiles, ts[n]);
        ghost var spots := before + SpotsOf(i, ts[..n]);
        assert ts[..n + 1][..n] == ts[..n];
        assert before + SpotsOf(i, ts[..n + 1]) == spots + [Spot(i, ts[n])];
        var node := ts[n].node.value;
        NextCounted(cands, order, spots, Spot(i, ts[n]), node);
        if node !in cands {
          cands := cands[node := (i, 1, ts[n])];
          order := order + [node];
        } else {
          var (at, count, best) := cands[node];
          if BetterBinding(ts[n], best) {
            at, best := i, ts[n];
          }
          cands := cands[node := (at, count + 1, best)];
        }
      }
      assert ts[..|ts|] == ts;
    }

    method Listed(cands: Cands, order: seq<int>) returns (out: seq<Pin>)
      requires |hashes| == |docs| && Counted(cands, order, AllSpots(docs))
      ensures out == PinList(AllSpots(docs), hashes, Nodes(AllSpots(docs)))
    {
      hide Counted, Nodes, AllSpots;
      out := [];
      for n := 0 to |order|
        invariant out == PinList(AllSpots(docs), hashes, order[..n])
      {
        assert order[..n + 1][..n] == order[..n];
        CountedAt(cands, order, AllSpots(docs), n);
        var (at, count, best) := cands[order[n]];
        if count >= 2 {
          BestOnBoard(docs, order[n]);
          out := out + [Pin(order[n], hashes[at], best.id)];
        }
      }
      assert order[..|order|] == order by { CountedNodes(cands, order, AllSpots(docs)); }
      CountedNodes(cands, order, AllSpots(docs));
    }
  }

  function Choice(spots: seq<Spot>, node: int): Option<Spot> {
    if Of(spots, node) == [] then None else Some(Best(Of(spots, node)))
  }

  lemma NextChoice(spots: seq<Spot>, s: Spot, node: int)
    ensures var before := Choice(spots, node);
            Choice(spots + [s], node) == if s.tile.node != Some(node) then before
                                         else if before.None? || BetterBinding(s.tile, before.value.tile) then Some(s)
                                         else before
  {
    assert (spots + [s])[..|spots|] == spots;
    var mine := Of(spots, node);
    if s.tile.node == Some(node) {
      assert Of(spots + [s], node) == mine + [s];
      assert (mine + [s])[..|mine|] == mine;
    } else {
      assert Of(spots + [s], node) == mine;
    }
  }

  lemma {:induction false} OfHas(spots: seq<Spot>, node: int, s: Spot)
    ensures s in Of(spots, node) <==> s in spots && s.tile.node == Some(node)
  {
    if spots != [] {
      OfHas(spots[..|spots| - 1], node, s);
      assert spots == spots[..|spots| - 1] + [spots[|spots| - 1]];
    }
  }

  lemma {:induction false} NodesHas(spots: seq<Spot>, node: int)
    ensures node in Nodes(spots) <==> Of(spots, node) != []
  {
    if spots != [] {
      NodesHas(spots[..|spots| - 1], node);
    }
  }

  ghost predicate CountedFor(cands: Cands, spots: seq<Spot>, node: int) {
    && (node in cands <==> Of(spots, node) != [])
    && (node in cands ==>
          cands[node].1 == |Of(spots, node)| && Spot(cands[node].0, cands[node].2) == Best(Of(spots, node)))
  }

  ghost predicate Counted(cands: Cands, order: seq<int>, spots: seq<Spot>) {
    order == Nodes(spots) && forall node :: CountedFor(cands, spots, node)
  }

  lemma NoneCounted()
    ensures Counted(map[], [], [])
  {
  }

  lemma CountsOn(cands: Cands, spots: seq<Spot>, s: Spot, node: int, other: int)
    requires CountedFor(cands, spots, node) && CountedFor(cands, spots, other) && s.tile.node == Some(node)
    ensures CountedFor(Counting(cands, s, node), spots + [s], other)
  {
    assert (spots + [s])[..|spots|] == spots;
    if other == node {
      var mine := Of(spots, node);
      assert Of(spots + [s], node) == mine + [s];
      assert (mine + [s])[..|mine|] == mine;
    } else {
      assert Of(spots + [s], other) == Of(spots, other);
    }
  }

  lemma NextCounted(cands: Cands, order: seq<int>, spots: seq<Spot>, s: Spot, node: int)
    requires Counted(cands, order, spots) && s.tile.node == Some(node)
    ensures Counted(Counting(cands, s, node), if node in cands then order else order + [node], spots + [s])
  {
    hide CountedFor, Counting;
    forall other ensures CountedFor(Counting(cands, s, node), spots + [s], other) {
      CountsOn(cands, spots, s, node, other);
    }
    assert (spots + [s])[..|spots|] == spots;
    NodesHas(spots, node);
    assert node in cands <==> node in order by { CountedIn(cands, spots, node); }
  }

  lemma CountedIn(cands: Cands, spots: seq<Spot>, node: int)
    requires CountedFor(cands, spots, node)
    ensures node in cands <==> Of(spots, node) != []
  {
  }

  lemma CountedAt(cands: Cands, order: seq<int>, spots: seq<Spot>, n: nat)
    requires Counted(cands, order, spots) && n < |order|
    ensures order[n] in cands && Of(spots, order[n]) != []
    ensures cands[order[n]].1 == |Of(spots, order[n])|
            && Spot(cands[order[n]].0, cands[order[n]].2) == Best(Of(spots, order[n]))
  {
    hide Of, Best;
    NodesHas(spots, order[n]);
    assert order[n] in order;
    assert CountedFor(cands, spots, order[n]);
  }

  lemma CountedNodes(cands: Cands, order: seq<int>, spots: seq<Spot>)
    requires Counted(cands, order, spots)
    ensures order == Nodes(spots)
  {
  }

  lemma BestOnBoard(docs: seq<Doc>, node: int)
    requires Of(AllSpots(docs), node) != []
    ensures Best(Of(AllSpots(docs), node)).at < |docs|
  {
    var mine := Of(AllSpots(docs), node);
    var j := BestIsFirst(mine);
    OfHas(AllSpots(docs), node, mine[j]);
    SpotsOnBoards(docs, mine[j]);
  }

  lemma {:induction false} FoldersShow(order: seq<string>, tiles: map<string, Tile>, t: Tile)
    ensures t in FolderList(order, tiles) ==> ShowsNode(t)
  {
    if order != [] {
      FoldersShow(order[..|order| - 1], tiles, t);
    }
  }

  lemma {:induction false} SpotsOnBoards(docs: seq<Doc>, s: Spot)
    ensures s in AllSpots(docs) ==> s.at < |docs|
  {
    if docs != [] {
      SpotsOnBoards(docs[..|docs| - 1], s);
      var d := docs[|docs| - 1];
      SpotsAt(|docs| - 1, FolderList(d.order, d.tiles), s);
    }
  }

  lemma {:induction false} SpotsAt(at: nat, ts: seq<Tile>, s: Spot)
    ensures s in SpotsOf(at, ts) ==> s.at == at
  {
    if ts != [] {
      SpotsAt(at, ts[..|ts| - 1], s);
    }
  }

  predicate IsPin(spots: seq<Spot>, hashes: seq<string>, p: Pin) {
    var mine := Of(spots, p.node);
    |mine| >= 2 && Best(mine).at < |hashes| && p.hash == hashes[Best(mine).at] && p.tileId == Best(mine).tile.id
  }

  /** The pins for a list of nodes. */
  function PinList(spots: seq<Spot>, hashes: seq<string>, nodes: seq<int>): seq<Pin> {
    if nodes == [] then []
    else
      var node := nodes[|nodes| - 1];
      var mine := Of(spots, node);
      PinList(spots, hashes, nodes[..|nodes| - 1])
      + if |mine| >= 2 && Best(mine).at < |hashes| then [Pin(node, hashes[Best(mine).at], Best(mine).tile.id)] else []
  }

  /** The best is one of them, no other is better, and it beats every one before it. */
  lemma {:induction false} BestIsFirst(spots: seq<Spot>) returns (j: nat)
    requires spots != []
    ensures j < |spots| && Best(spots) == spots[j]
    ensures forall i :: 0 <= i < |spots| ==> !BetterBinding(spots[i].tile, spots[j].tile)
    ensures forall i :: 0 <= i < j ==> BetterBinding(spots[j].tile, spots[i].tile)
  {
    var n := |spots| - 1;
    if n == 0 {
      j := 0;
    } else {
      var front := spots[..n];
      j := BestIsFirst(front);
      forall i | 0 <= i < n ensures !BetterBinding(spots[i].tile, spots[j].tile) {
        assert spots[i] == front[i];
      }
      if BetterBinding(spots[n].tile, spots[j].tile) {
        forall i | 0 <= i < n ensures BetterBinding(spots[n].tile, spots[i].tile) {
          assert !BetterBinding(spots[i].tile, spots[j].tile);
        }
        j := n;
      } else {
        assert forall i :: 0 <= i < j ==> front[i] == spots[i];
      }
    }
  }

  lemma {:induction false} PinListHas(spots: seq<Spot>, hashes: seq<string>, nodes: seq<int>, p: Pin)
    ensures p in PinList(spots, hashes, nodes) <==> p.node in nodes && IsPin(spots, hashes, p)
  {
    hide Of, Best;
    if nodes != [] {
      PinListHas(spots, hashes, nodes[..|nodes| - 1], p);
      assert nodes == nodes[..|nodes| - 1] + [nodes[|nodes| - 1]];
    }
  }

  /** A node is pinned exactly when two or more tiles show it, and then on the tile that
      `bindingTile` picks for that node. */
  lemma PinsAreBindings(docs: seq<Doc>, hashes: seq<string>, p: Pin)
    requires |hashes| == |docs|
    ensures var mine := Of(AllSpots(docs), p.node);
            p in PinList(AllSpots(docs), hashes, Nodes(AllSpots(docs))) <==>
              |mine| >= 2 && Best(mine).at < |hashes| && p.hash == hashes[Best(mine).at]
              && p.tileId == Best(mine).tile.id
    ensures |Of(AllSpots(docs), p.node)| >= 2 ==> Best(Of(AllSpots(docs), p.node)).at < |hashes|
  {
    hide Of, AllSpots, Best, Nodes;
    PinListHas(AllSpots(docs), hashes, Nodes(AllSpots(docs)), p);
    NodesHas(AllSpots(docs), p.node);
    if |Of(AllSpots(docs), p.node)| >= 2 {
      BestOnBoard(docs, p.node);
    }
  }

  // ---- the choice, told from the boards alone ----

  /** Place `n` of board `i` is a folder tile that shows the node. */
  predicate FolderAt(docs: seq<Doc>, i: nat, n: nat, node: int) {
    && i < |docs| && n < |docs[i].order| && docs[i].order[n] in docs[i].tiles
    && docs[i].tiles[docs[i].order[n]].kind == Folder && docs[i].tiles[docs[i].order[n]].node == Some(node)
  }

  function TileAt(docs: seq<Doc>, i: nat, n: nat): Tile
    requires i < |docs| && n < |docs[i].order| && docs[i].order[n] in docs[i].tiles
  {
    docs[i].tiles[docs[i].order[n]]
  }

  /** The tile at this place is to receive: if any tile of the node is pinned, it is; of those pinned
      like it none was shown earlier, and none shown as early comes before it. */
  ghost predicate FirstChoice(docs: seq<Doc>, node: int, i: nat, n: nat) {
    && FolderAt(docs, i, n, node)
    && forall m: nat, l: nat {:trigger FolderAt(docs, m, l, node)} :: FolderAt(docs, m, l, node) ==>
         var t, u := TileAt(docs, i, n), TileAt(docs, m, l);
         && (u.bound ==> t.bound)
         && (u.bound == t.bound ==> t.shownAt <= u.shownAt
                                    && (t.shownAt == u.shownAt ==> i < m || (i == m && n <= l)))
  }

  ghost predicate NoneShown(docs: seq<Doc>, nodes: seq<int>) {
    forall a, i: nat, n: nat {:trigger a in nodes, FolderAt(docs, i, n, a)} :: a in nodes ==> !FolderAt(docs, i, n, a)
  }

  /** Two tiles or more show the node, and this is the one to receive. */
  ghost predicate IsPinned(docs: seq<Doc>, hashes: seq<string>, p: Pin)
    requires |hashes| == |docs|
  {
    && (exists i: nat, n: nat {:trigger FirstChoice(docs, p.node, i, n)} ::
          FirstChoice(docs, p.node, i, n) && p.hash == hashes[i] && p.tileId == TileAt(docs, i, n).id)
    && exists i: nat, n: nat, m: nat, l: nat {:trigger FolderAt(docs, i, n, p.node), FolderAt(docs, m, l, p.node)} ::
         FolderAt(docs, i, n, p.node) && FolderAt(docs, m, l, p.node) && (i != m || n != l)
  }

  predicate ShowsIt(tiles: map<string, Tile>, k: string, node: int) {
    k in tiles && ShowsNode(tiles[k]) && tiles[k].node == Some(node)
  }

  /** Where the tiles of a node stand, board after board. */
  function BoardPlaces(at: nat, order: seq<string>, tiles: map<string, Tile>, node: int): seq<(nat, nat)> {
    if order == [] then []
    else
      var k := order[|order| - 1];
      BoardPlaces(at, order[..|order| - 1], tiles, node)
      + if ShowsIt(tiles, k, node) then [(at, |order| - 1)] else []
  }

  function Places(docs: seq<Doc>, node: int): seq<(nat, nat)> {
    if docs == [] then []
    else
      var d := docs[|docs| - 1];
      Places(docs[..|docs| - 1], node) + BoardPlaces(|docs| - 1, d.order, d.tiles, node)
  }

  predicate Sooner(a: (nat, nat), b: (nat, nat)) { a.0 < b.0 || (a.0 == b.0 && a.1 < b.1) }

  ghost predicate Rising(ps: seq<(nat, nat)>) { forall j, k :: 0 <= j < k < |ps| ==> Sooner(ps[j], ps[k]) }

  /** The places of one board up to `order`, and the tiles that stand there. */
  ghost predicate BoardMatch(at: nat, order: seq<string>, tiles: map<string, Tile>, node: int, ps: seq<(nat, nat)>,
                             spots: seq<Spot>) {
    && |ps| == |spots| && Rising(ps)
    && (forall j {:trigger ps[j]} {:trigger spots[j]} :: 0 <= j < |ps| ==>
          && ps[j].0 == at && ps[j].1 < |order| && ShowsIt(tiles, order[ps[j].1], node)
          && spots[j] == Spot(at, tiles[order[ps[j].1]]))
    && forall n: nat {:trigger order[n]} :: n < |order| && ShowsIt(tiles, order[n], node) ==> (at, n) in ps
  }

  lemma OfBoth(a: seq<Spot>, s: Spot, node: int)
    ensures Of(a + [s], node) == Of(a, node) + if s.tile.node == Some(node) then [s] else []
  {
    assert (a + [s])[..|a|] == a;
  }

  lemma BoardGrows(at: nat, order: seq<string>, tiles: map<string, Tile>, node: int, ps: seq<(nat, nat)>,
                   spots: seq<Spot>)
    requires order != [] && BoardMatch(at, order[..|order| - 1], tiles, node, ps, spots)
    ensures var k := order[|order| - 1];
            if ShowsIt(tiles, k, node)
            then BoardMatch(at, order, tiles, node, ps + [(at, |order| - 1)], spots + [Spot(at, tiles[k])])
            else BoardMatch(at, order, tiles, node, ps, spots)
  {
    hide ShowsNode;
    var front, k := order[..|order| - 1], order[|order| - 1];
    assert forall n :: 0 <= n < |front| ==> front[n] == order[n];
    if ShowsIt(tiles, k, node) {
      var qs := ps + [(at, |front|)];
      assert forall x :: x in ps ==> x in qs;
      assert qs[|ps|] == (at, |front|);
    }
  }

  lemma SpotsNext(at: nat, order: seq<string>, tiles: map<string, Tile>, node: int)
    requires order != []
    ensures var front, k := order[..|order| - 1], order[|order| - 1];
            Of(SpotsOf(at, FolderList(order, tiles)), node) ==
            if ShowsIt(tiles, k, node) then Of(SpotsOf(at, FolderList(front, tiles)), node) + [Spot(at, tiles[k])]
            else Of(SpotsOf(at, FolderList(front, tiles)), node)
    ensures var front, k := order[..|order| - 1], order[|order| - 1];
            BoardPlaces(at, order, tiles, node) ==
            if ShowsIt(tiles, k, node) then BoardPlaces(at, front, tiles, node) + [(at, |order| - 1)]
            else BoardPlaces(at, front, tiles, node)
  {
    var ts, k := FolderList(order[..|order| - 1], tiles), order[|order| - 1];
    assert FolderList(order, tiles) == if k in tiles && ShowsNode(tiles[k]) then ts + [tiles[k]] else ts;
    if k in tiles && ShowsNode(tiles[k]) {
      assert (ts + [tiles[k]])[..|ts|] == ts;
      OfBoth(SpotsOf(at, ts), Spot(at, tiles[k]), node);
      hide Of;
      assert tiles[k].node != Some(node) ==> Of(SpotsOf(at, ts), node) + [] == Of(SpotsOf(at, ts), node);
    }
  }

  lemma {:induction false} BoardMatches(at: nat, order: seq<string>, tiles: map<string, Tile>, node: int)
    ensures BoardMatch(at, order, tiles, node, BoardPlaces(at, order, tiles, node),
                       Of(SpotsOf(at, FolderList(order, tiles)), node))
  {
    if order != [] {
      var front, k := order[..|order| - 1], order[|order| - 1];
      BoardMatches(at, front, tiles, node);
      SpotsNext(at, order, tiles, node);
      hide BoardMatch, Of, SpotsOf, FolderList, BoardPlaces, ShowsIt;
      BoardGrows(at, order, tiles, node, BoardPlaces(at, front, tiles, node),
                 Of(SpotsOf(at, FolderList(front, tiles)), node));
    }
  }

  ghost predicate Match(docs: seq<Doc>, node: int, ps: seq<(nat, nat)>, spots: seq<Spot>) {
    && |ps| == |spots| && Rising(ps)
    && (forall j {:trigger ps[j]} {:trigger spots[j]} :: 0 <= j < |ps| ==>
          FolderAt(docs, ps[j].0, ps[j].1, node) && spots[j] == Spot(ps[j].0, TileAt(docs, ps[j].0, ps[j].1)))
    && forall i: nat, n: nat {:trigger FolderAt(docs, i, n, node)} :: FolderAt(docs, i, n, node) ==> (i, n) in ps
  }

  lemma MatchGrows(docs: seq<Doc>, node: int, ps: seq<(nat, nat)>, spots: seq<Spot>, qs: seq<(nat, nat)>,
                   more: seq<Spot>)
    requires docs != [] && Match(docs[..|docs| - 1], node, ps, spots)
    requires var d := docs[|docs| - 1]; BoardMatch(|docs| - 1, d.order, d.tiles, node, qs, more)
    ensures Match(docs, node, ps + qs, spots + more)
  {
    var front, last := docs[..|docs| - 1], |docs| - 1;
    assert forall i :: 0 <= i < last ==> front[i] == docs[i];
    forall i: nat, n: nat {:trigger FolderAt(docs, i, n, node)} | FolderAt(docs, i, n, node)
      ensures (i, n) in ps + qs
    {
      if i < last {
        assert FolderAt(front, i, n, node);
      } else {
        assert docs[last].order[n] in docs[last].tiles;
      }
    }
    forall j {:trigger ps[j]} | 0 <= j < |ps| ensures FolderAt(docs, ps[j].0, ps[j].1, node) && ps[j].0 < last
                              ensures spots[j] == Spot(ps[j].0, TileAt(docs, ps[j].0, ps[j].1))
    {
      assert FolderAt(front, ps[j].0, ps[j].1, node);
    }
  }

  lemma {:induction false} OfConcat(a: seq<Spot>, b: seq<Spot>, node: int)
    ensures Of(a + b, node) == Of(a, node) + Of(b, node)
  {
    if b == [] {
      assert a + b == a;
    } else {
      assert (a + b)[..|a + b| - 1] == a + b[..|b| - 1];
      OfConcat(a, b[..|b| - 1], node);
    }
  }

  lemma {:induction false} AllMatch(docs: seq<Doc>, node: int)
    ensures Match(docs, node, Places(docs, node), Of(AllSpots(docs), node))
  {
    if docs != [] {
      var front, d, at := docs[..|docs| - 1], docs[|docs| - 1], |docs| - 1;
      AllMatch(front, node);
      BoardMatches(at, d.order, d.tiles, node);
      OfConcat(AllSpots(front), SpotsOf(at, FolderList(d.order, d.tiles)), node);
      hide Match, BoardMatch, Of, SpotsOf, FolderList, BoardPlaces;
      MatchGrows(docs, node, Places(front, node), Of(AllSpots(front), node), BoardPlaces(at, d.order, d.tiles, node),
                 Of(SpotsOf(at, FolderList(d.order, d.tiles)), node));
    }
  }

  /** The best of the list is the first choice. */
  lemma BestIsChosen(docs: seq<Doc>, node: int) returns (i: nat, n: nat)
    requires Of(AllSpots(docs), node) != []
    ensures FirstChoice(docs, node, i, n) && Best(Of(AllSpots(docs), node)) == Spot(i, TileAt(docs, i, n))
  {
    var ps, spots := Places(docs, node), Of(AllSpots(docs), node);
    AllMatch(docs, node);
    hide Of, AllSpots, Places, Best;
    var j := BestIsFirst(spots);
    i, n := ps[j].0, ps[j].1;
    forall m: nat, l: nat {:trigger FolderAt(docs, m, l, node)} | FolderAt(docs, m, l, node)
      ensures var t, u := TileAt(docs, i, n), TileAt(docs, m, l);
              && (u.bound ==> t.bound)
              && (u.bound == t.bound ==> t.shownAt <= u.shownAt
                                         && (t.shownAt == u.shownAt ==> i < m || (i == m && n <= l)))
    {
      var k :| 0 <= k < |ps| && ps[k] == (m, l);
      assert spots[k].tile == TileAt(docs, m, l) && spots[j].tile == TileAt(docs, i, n);
      assert !BetterBinding(spots[k].tile, spots[j].tile);
      assert k < j ==> BetterBinding(spots[j].tile, spots[k].tile);
      assert j < k ==> Sooner(ps[j], ps[k]);
    }
  }

  lemma OneChoice(docs: seq<Doc>, node: int, i: nat, n: nat, m: nat, l: nat)
    requires FirstChoice(docs, node, i, n) && FirstChoice(docs, node, m, l)
    ensures i == m && n == l
  {
    assert FolderAt(docs, i, n, node) && FolderAt(docs, m, l, node);
  }

  lemma ShownIff(docs: seq<Doc>, node: int)
    ensures Of(AllSpots(docs), node) == [] <==> forall i: nat, n: nat :: !FolderAt(docs, i, n, node)
    ensures |Of(AllSpots(docs), node)| >= 2 <==>
              exists i: nat, n: nat, m: nat, l: nat {:trigger FolderAt(docs, i, n, node), FolderAt(docs, m, l, node)} ::
                FolderAt(docs, i, n, node) && FolderAt(docs, m, l, node) && (i != m || n != l)
  {
    var ps, spots := Places(docs, node), Of(AllSpots(docs), node);
    AllMatch(docs, node);
    hide Of, AllSpots, Places;
    if |spots| >= 2 {
      assert FolderAt(docs, ps[0].0, ps[0].1, node) && FolderAt(docs, ps[1].0, ps[1].1, node) && Sooner(ps[0], ps[1]);
    } else if |spots| == 1 {
      assert FolderAt(docs, ps[0].0, ps[0].1, node);
    }
  }

  lemma ChosenFirst(docs: seq<Doc>, ancestors: seq<int>, k: nat)
    requires k < |ancestors| && Of(AllSpots(docs), ancestors[k]) != []
    requires forall j :: 0 <= j < k ==> Of(AllSpots(docs), ancestors[j]) == []
    ensures NoneShown(docs, ancestors[..k])
    ensures exists i: nat, n: nat {:trigger FirstChoice(docs, ancestors[k], i, n)} ::
              FirstChoice(docs, ancestors[k], i, n)
              && Best(Of(AllSpots(docs), ancestors[k])) == Spot(i, TileAt(docs, i, n))
  {
    hide Of, AllSpots, Best, FirstChoice;
    forall a | a in ancestors[..k] ensures forall i: nat, n: nat :: !FolderAt(docs, i, n, a) {
      ShownIff(docs, a);
    }
    var i, n := BestIsChosen(docs, ancestors[k]);
  }

  lemma AllNotShown(docs: seq<Doc>, ancestors: seq<int>)
    requires forall j :: 0 <= j < |ancestors| ==> Of(AllSpots(docs), ancestors[j]) == []
    ensures forall a, i: nat, n: nat :: a in ancestors ==> !FolderAt(docs, i, n, a)
  {
    hide Of, AllSpots;
    forall a | a in ancestors ensures forall i: nat, n: nat :: !FolderAt(docs, i, n, a) {
      ShownIff(docs, a);
    }
  }

  lemma PinnedIs(docs: seq<Doc>, hashes: seq<string>, p: Pin)
    requires |hashes| == |docs|
    ensures p in PinList(AllSpots(docs), hashes, Nodes(AllSpots(docs))) <==> IsPinned(docs, hashes, p)
  {
    PinsAreBindings(docs, hashes, p);
    ShownIff(docs, p.node);
    hide Of, AllSpots, Best, FirstChoice, PinList, Nodes;
    if |Of(AllSpots(docs), p.node)| >= 2 {
      var i, n := BestIsChosen(docs, p.node);
      ChoiceOnBoard(docs, p.node, i, n);
      forall m: nat, l: nat | FirstChoice(docs, p.node, m, l) ensures m == i && l == n {
        OneChoice(docs, p.node, i, n, m, l);
      }
    }
  }

  lemma ChoiceOnBoard(docs: seq<Doc>, node: int, i: nat, n: nat)
    requires FirstChoice(docs, node, i, n)
    ensures FolderAt(docs, i, n, node)
  {
  }
}
