/** What the editor's result says to a reader of the file: the folders by their names, and all
    other members as they were. */
module SetReplaceNames {
  import opened Wrappers
  import opened Sequences
  import opened JsonSpec
  import opened SetReplace
  import opened SetReplaceReparse
  import opened SetReplaceTheorem
  import HoldBack

  /** The bytes are UTF-8 in the sense of RFC 3629. */
  predicate IsUtf8(d: Text) { HoldBack.ValidText(seq(|d|, i requires 0 <= i < |d| => d[i] as bv8)) }

  /** Valid text survives `json.Marshal` and `json.Unmarshal`; of other bytes the library makes
      replacement characters. */
  ghost predicate ReadsNames(lib: Lib) {
    LibOk(lib) && forall d :: IsUtf8(d) ==> lib.unquote(lib.quote(d)) == Some(d)
  }

  /** The list of these very folders. */
  function NamesJson(dirs: seq<Text>): Json { JArr(seq(|dirs|, k requires 0 <= k < |dirs| => JStr(dirs[k]))) }

  /** The members other than "replace", in order. */
  function Others(ms: seq<Member>): seq<Member> {
    if ms == [] then []
    else Others(ms[..|ms| - 1]) + if ms[|ms| - 1].key == REPLACE then [] else [ms[|ms| - 1]]
  }

  lemma {:induction false} OthersBoth(a: seq<Member>, b: seq<Member>)
    ensures Others(a + b) == Others(a) + Others(b)
  {
    if b == [] {
      assert a + b == a;
    } else {
      assert (a + b)[..|a + b| - 1] == a + b[..|b| - 1];
      OthersBoth(a, b[..|b| - 1]);
    }
  }

  lemma OthersAround(a: seq<Member>, m: Member, b: seq<Member>)
    requires m.key == REPLACE
    ensures Others(a + [m] + b) == Others(a) + Others(b)
  {
    OthersOne(m);
    hide Others;
    OthersBoth(a + [m], b);
    OthersBoth(a, [m]);
    assert Others(a) + [] == Others(a);
  }

  lemma OthersOne(m: Member)
    requires m.key == REPLACE
    ensures Others([m]) == []
  {
    assert [m][..0] == [];
  }

  ghost predicate OneReplace(ms: seq<Member>) {
    forall i, j :: 0 <= i < j < |ms| ==> ms[i].key != REPLACE || ms[j].key != REPLACE
  }

  lemma {:induction false} PositionIs(ms: seq<Member>, i: nat)
    requires OneReplace(ms) && i < |ms| && ms[i].key == REPLACE
    ensures Position(ms, REPLACE) == i
  {
    if i < |ms| - 1 {
      PositionIs(ms[..|ms| - 1], i);
    }
  }

  lemma {:induction false} PositionNone(ms: seq<Member>)
    ensures Position(ms, REPLACE) < 0 <==> forall i :: 0 <= i < |ms| ==> ms[i].key != REPLACE
  {
    if ms != [] {
      PositionNone(ms[..|ms| - 1]);
    }
  }

  /** Between `a` and `b` there is "replace", and in them it is not. */
  ghost predicate OnlyAt(a: seq<Member>, m: Member, b: seq<Member>) {
    m.key == REPLACE && Position(a, REPLACE) < 0 && Position(b, REPLACE) < 0
  }

  lemma FoundBetween(a: seq<Member>, m: Member, b: seq<Member>)
    requires OnlyAt(a, m, b)
    ensures Position(a + [m] + b, REPLACE) == |a|
  {
    hide Position;
    PositionNone(a);
    PositionNone(b);
    PositionIs(a + [m] + b, |a|);
  }

  lemma NotFoundBetween(a: seq<Member>, b: seq<Member>)
    requires Position(a, REPLACE) < 0 && Position(b, REPLACE) < 0
    ensures Position(a + b, REPLACE) < 0
  {
    hide Position;
    PositionNone(a);
    PositionNone(b);
    PositionNone(a + b);
  }

  lemma Around(ms: seq<Member>, r: nat)
    requires OneReplace(ms) && r < |ms| && ms[r].key == REPLACE
    ensures OnlyAt(ms[..r], ms[r], ms[r + 1..]) && ms == ms[..r] + [ms[r]] + ms[r + 1..]
  {
    hide Position;
    PositionNone(ms[..r]);
    PositionNone(ms[r + 1..]);
  }

  lemma NoneInFront(ms: seq<Member>, u: nat)
    requires u <= |ms| && Position(ms, REPLACE) < 0
    ensures Position(ms[..u], REPLACE) < 0
  {
    hide *;
    PositionNone(ms);
    PositionNone(ms[..u]);
  }

  lemma NoneBehind(ms: seq<Member>, u: nat)
    requires u <= |ms| && Position(ms, REPLACE) < 0
    ensures Position(ms[u..], REPLACE) < 0
  {
    hide *;
    PositionNone(ms);
    PositionNone(ms[u..]);
  }

  lemma Parted(ms: seq<Member>, u: nat)
    requires u <= |ms| && Position(ms, REPLACE) < 0
    ensures ms == ms[..u] + ms[u..] && Position(ms[..u], REPLACE) < 0 && Position(ms[u..], REPLACE) < 0
  {
    hide *;
    CutInTwo(ms, u);
    NoneInFront(ms, u);
    NoneBehind(ms, u);
  }

  /** The members the editor aims at, told from the list alone. */
  lemma ExpectedNames(lib: Lib, ms: seq<Member>, dirs: seq<Text>)
    requires OneReplace(ms)
    ensures var e := Expected(lib, ms, dirs);
            && Others(e) == Others(ms)
            && if dirs == [] then Position(e, REPLACE) < 0
               else Position(e, REPLACE) >= 0 && e[Position(e, REPLACE)].val == ListJson(lib, dirs)
  {
    hide ListJson, Others, Position, OneReplace;
    var r, u, m := Position(ms, REPLACE), Position(ms, USES), Member(REPLACE, ListJson(lib, dirs));
    if r >= 0 {
      Around(ms, r);
      OthersAround(ms[..r], ms[r], ms[r + 1..]);
      if dirs == [] {
        OthersBoth(ms[..r], ms[r + 1..]);
        NotFoundBetween(ms[..r], ms[r + 1..]);
      } else {
        assert ms[r := m] == ms[..r] + [m] + ms[r + 1..];
        OthersAround(ms[..r], m, ms[r + 1..]);
        FoundBetween(ms[..r], m, ms[r + 1..]);
      }
    } else if dirs != [] {
      Parted(ms, u + 1);
      OthersAround(ms[..u + 1], m, ms[u + 1..]);
      OthersBoth(ms[..u + 1], ms[u + 1..]);
      FoundBetween(ms[..u + 1], m, ms[u + 1..]);
    }
  }

  lemma NamesReadBack(lib: Lib, dirs: seq<Text>)
    requires ReadsNames(lib) && forall k :: 0 <= k < |dirs| ==> IsUtf8(dirs[k])
    ensures ListJson(lib, dirs) == NamesJson(dirs)
  {
    hide LibOk, IsUtf8;
  }

  /** For folders that are valid text: whatever parses as an object before does so after, with the
      same other members in the same order, and "replace" names just these folders, or is gone. */
  lemma ReplaceNamesFolders(lib: Lib, s: Text, dirs: seq<Text>)
    requires ReadsNames(lib) && forall k :: 0 <= k < |dirs| ==> IsUtf8(dirs[k])
    requires Parse(lib, s).Ok? && Parse(lib, s).val.kind == KObj
    ensures Result(lib, s, dirs).Edited?
    ensures var r := Parse(lib, Result(lib, s, dirs).text);
            && r.Ok? && r.val.kind == KObj
            && var ms := PlainKeys(r.val.keys);
               var i := Position(ms, REPLACE);
               && Others(ms) == Others(PlainKeys(Parse(lib, s).val.keys))
               && if dirs == [] then i < 0 else i >= 0 && ms[i].val == NamesJson(dirs)
  {
    hide Parse, Expected, IsUtf8, NamesJson, ListJson, Plain, Others;
    SetReplaceReparses(lib, s, dirs);
    NamesReadBack(lib, dirs);
    OnlyOneReplace(lib, s);
    ExpectedNames(lib, PlainKeys(Parse(lib, s).val.keys), dirs);
  }

  lemma OnlyOneReplace(lib: Lib, s: Text)
    requires Parse(lib, s).Ok? && Parse(lib, s).val.kind == KObj
    ensures OneReplace(PlainKeys(Parse(lib, s).val.keys))
  {
  }
}
