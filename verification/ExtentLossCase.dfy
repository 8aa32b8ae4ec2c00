/**
 * A file whose next insertion, with one free block left, loses 83 mapped blocks: an index node of 84
 * leaves under a root with room, and a first leaf of 84 extents with the new block behind its first.
 */
module ExtentLossCase {
  import opened ExtentNodes
  import opened ExtentSteps
  import opened ExtentLeaf
  import opened ExtentPath
  import opened ExtentSplit
  import opened ExtentLoss

  const CAP: nat := 84

  function First(i: nat): nat {
    1000 * i
  }

  function Entries(): (ents: seq<Index>)
    ensures |ents| == CAP && forall i :: 0 <= i < CAP ==> ents[i] == Index(First(i), 100 + i)
  {
    seq(CAP, i requires 0 <= i => Index(First(i), 100 + i))
  }

  function Dense(): (exts: seq<Extent>)
    ensures |exts| == CAP && forall i :: 0 <= i < CAP ==> exts[i] == Extent(2 * i, 1, 5000 + 2 * i)
  {
    seq(CAP, i requires 0 <= i => Extent(2 * i, 1, 5000 + 2 * i))
  }

  function LeafAt(i: nat): seq<Extent> {
    if i == 0 then Dense() else [Extent(First(i), 1, 5000 + First(i))]
  }

  function TheNode(a: nat): Node {
    if a == 0 then Inner(2, ROOT_CAP, [Index(0, 1)])
    else if a == 1 then Inner(1, CAP, Entries())
    else Leaf(CAP, LeafAt(if a < 100 then 0 else a - 100))
  }

  predicate IsNode(a: nat) {
    a == 0 || a == 1 || 100 <= a < 100 + CAP
  }

  function TheTree(): Tree {
    map a: nat | a < 200 && IsNode(a) :: TheNode(a)
  }

  predicate IsMapped(x: nat) {
    (x < 2 * CAP && x % 2 == 0) || (0 < x < First(CAP) && x % 1000 == 0)
  }

  ghost function TheMap(): map<nat, nat> {
    map x: nat | x < First(CAP) && IsMapped(x) :: 5000 + x
  }

  ghost function TheLayout(): Layout {
    Layout(map a: nat | a < 200 && IsNode(a) :: if a < 100 then 0 else First(a - 100),
           map a: nat | a < 200 && IsNode(a) :: if a < 100 || a == 99 + CAP then EXT_MAX_BLOCKS else First(a - 99),
           map a: nat | a < 200 && IsNode(a) && a != 0 :: if a == 1 then 0 else 1)
  }

  function ThePath(): seq<Step> {
    [Step(0, 0), Step(1, 0), Step(100, 0)]
  }

  lemma DenseOk()
    ensures LeafOk(TheLayout(), TheMap(), 100, Dense())
  {
    var g, m, exts := TheLayout(), TheMap(), Dense();
    forall i | 0 <= i < CAP ensures ExtentOk(g, m, 100, exts[i]) {
      forall x | Covers(exts[i], x) ensures x in m && m[x] == Phys(exts[i], x) {
        assert x == 2 * i && IsMapped(x);
      }
    }
    forall x | x in m && g.lo[100] <= x < g.hi[100] ensures CoveredBy(exts, x) {
      assert x < 2 * CAP && x % 2 == 0;
      assert Covers(exts[x / 2], x);
    }
  }

  lemma SparseOk(i: nat)
    requires 0 < i < CAP
    ensures Placed(TheLayout(), 100 + i) && LeafOk(TheLayout(), TheMap(), 100 + i, LeafAt(i))
  {
    var g, m, exts, a := TheLayout(), TheMap(), LeafAt(i), 100 + i;
    assert IsMapped(First(i));
    assert ExtentOk(g, m, a, exts[0]);
    forall x | x in m && g.lo[a] <= x < g.hi[a] ensures CoveredBy(exts, x) {
      assert x == First(i);
      assert Covers(exts[0], x);
    }
  }

  lemma IndexOk()
    ensures InnerOk(TheTree(), TheLayout(), 1, 1, Entries())
  {
    forall j | 0 <= j < CAP ensures ChildOk(TheTree(), TheLayout(), 1, 1, Entries(), j) {
      assert IsNode(100 + j);
    }
  }

  lemma CaseRoot()
    ensures InnerOk(TheTree(), TheLayout(), 0, 2, [Index(0, 1)])
  {
    assert IsNode(1);
    assert ChildOk(TheTree(), TheLayout(), 0, 2, [Index(0, 1)], 0);
  }

  lemma CaseShape()
    ensures ShapeOk(TheTree(), TheLayout(), TheMap())
  {
    hide LeafOk, InnerOk;
    var t, g, m := TheTree(), TheLayout(), TheMap();
    forall a | a in t ensures NodeOk(t, g, m, a) {
      if a == 0 {
        CaseRoot();
      } else if a == 1 {
        IndexOk();
      } else if a == 100 {
        DenseOk();
      } else {
        SparseOk(a - 100);
      }
    }
  }

  lemma CaseHangs()
    ensures AllHang(TheTree(), TheLayout(), 0)
  {
    var t, g := TheTree(), TheLayout();
    forall c | c in t && c != 0 ensures Hangs(t, g, c) {
      assert IsNode(0) && IsNode(1);
      if c == 1 {
        assert t[0].ents[0].addr == 1;
      } else {
        assert t[1].ents[c - 100].addr == c;
      }
    }
  }

  lemma CaseEnds()
    ensures HiMapped(TheTree(), TheLayout(), TheMap(), EXT_MAX_BLOCKS)
  {
    var t, g, m := TheTree(), TheLayout(), TheMap();
    forall a | a in t && a in g.hi ensures g.hi[a] == EXT_MAX_BLOCKS || g.hi[a] in m {
      if a >= 100 && a < 99 + CAP {
        assert IsMapped(First(a - 99));
      }
    }
  }

  lemma CaseRest()
    ensures RestOk(CAP, TheTree(), TheLayout(), TheMap(), 0, 0, EXT_MAX_BLOCKS)
  {
    hide AllHang, HiMapped, TheLayout, TheMap;
    CaseHangs();
    CaseEnds();
  }

  lemma CasePath()
    ensures PathOk(TheTree(), TheLayout(), ThePath(), 1, 2)
    ensures 0 in TheTree() && 1 in TheTree() && 100 in TheTree()
    ensures TheTree()[0].Inner? && |TheTree()[0].ents| == 1 && TheTree()[0].cap == ROOT_CAP
    ensures TheTree()[1].Inner? && |TheTree()[1].ents| == CAP == TheTree()[1].cap
    ensures TheTree()[100] == Leaf(CAP, Dense())
  {
    var t, g, path := TheTree(), TheLayout(), ThePath();
    assert IsNode(0) && IsNode(1) && IsNode(100);
    assert LinkedAt(t, path, 0) && LinkedAt(t, path, 1) && LinkedAt(t, path, 2);
  }

  function DenseBlock(i: nat): nat {
    2 * i
  }

  /** All extents of the first leaf but one. */
  lemma LostBlocks()
    ensures forall i :: 1 <= i < CAP ==>
      DenseBlock(i) in TheMap() && Lost(TheTree(), TheLayout(), ThePath(), 2, 1, DenseBlock(i))
  {
    CasePath();
    var g := TheLayout();
    assert IsNode(100) && g.hi[100] == 1000;
    hide TheTree, TheLayout;
    forall i | 1 <= i < CAP ensures DenseBlock(i) in TheMap() && Lost(TheTree(), g, ThePath(), 2, 1, DenseBlock(i)) {
      assert IsMapped(DenseBlock(i));
    }
  }

  /** One free block, two full levels: the insertion runs out of blocks and does not keep the file. */
  lemma SplitLoses()
    ensures var t, path, e := TheTree(), ThePath(), Extent(1, 1, 7);
      && TreeOk(BlockCap(1024), t, TheLayout(), TheMap())
      && PathOk(t, TheLayout(), path, e.first, e.first + 1) && 1 !in TheMap()
      && LeafWay(t[LeafOf(path)], path[2].pos, e) == NotDone && 1 < FullLevels(t, path)
      && (forall t' :: RanOut(t, TheLayout(), path, 1, e.first, t') ==> !SameFile(t, t'))
    ensures forall i :: 1 <= i < CAP ==>
      DenseBlock(i) in TheMap() && Lost(TheTree(), TheLayout(), ThePath(), 2, 1, DenseBlock(i))
  {
    LostBlocks();
    CaseShape();
    CaseRest();
    CasePath();
    hide ShapeOk, RestOk, TheTree, TheLayout, PathOk, SameFile;
    var t, path := TheTree(), ThePath();
    FullLevelsIs(t, path, 0);
    assert !AtEnd(t, path, 2);
  }
}
