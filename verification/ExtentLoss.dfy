/**
 * A split that runs out of blocks half way: the source frees the new nodes it has made, but leaves
 * the split nodes of the path cut behind the path's positions.
 */
module ExtentLoss {
  import opened ExtentNodes
  import opened ExtentSteps
  import opened ExtentLeaf
  import opened ExtentPath
  import opened ExtentSplit

  function Size(n: Node): nat {
    if n.Leaf? then |n.exts| else |n.ents|
  }

  /** A node without what lies behind position `pos`. */
  function Cropped(n: Node, pos: nat): Node {
    if pos >= Size(n) then n
    else if n.Leaf? then n.(exts := n.exts[..pos + 1])
    else n.(ents := n.ents[..pos + 1])
  }

  /** The tree with the nodes of the path from level `j` down cut behind the path's positions. */
  function Pruned(t: Tree, path: seq<Step>, j: nat): Tree
    decreases |path| - j
  {
    if j >= |path| then t
    else
      var rest, a := Pruned(t, path, j + 1), path[j].addr;
      if a in t then rest[a := Cropped(t[a], path[j].pos)] else rest
  }

  /** From level `j` down the path stands at the last entry of every node. */
  ghost predicate AtEnd(t: Tree, path: seq<Step>, j: nat) {
    forall l :: j <= l < |path| ==> path[l].addr in t && path[l].pos + 1 == Size(t[path[l].addr])
  }

  /** How many nodes at the end of the path are full. */
  function FullLevels(t: Tree, path: seq<Step>): (n: nat)
    ensures n <= |path|
  {
    if path == [] || !NodeFull(t, path[|path| - 1].addr) then 0
    else FullLevels(t, path[..|path| - 1]) + 1
  }

  /** The nodes behind level `i` are full and node `i` is not, or there is no such node. */
  lemma {:induction false} FullLevelsIs(t: Tree, path: seq<Step>, i: int)
    requires -1 <= i < |path| && (forall l :: i < l < |path| ==> NodeFull(t, path[l].addr))
    requires i >= 0 ==> !NodeFull(t, path[i].addr)
    ensures FullLevels(t, path) == |path| - 1 - i
  {
    if i + 1 < |path| {
      FullLevelsIs(t, path[..|path| - 1], i);
    }
  }

  /** How many levels get split with `free` blocks, the first of which goes to a new root level if all are full. */
  function Splits(t: Tree, path: seq<Step>, free: nat): nat {
    if FullLevels(t, path) < |path| then free else if free == 0 then 0 else free - 1
  }

  /** The blocks that lay behind the path in the nodes cut from level `j` down. */
  ghost predicate Lost(t: Tree, g: Layout, path: seq<Step>, j: nat, x0: nat, x: nat) {
    && j < |path| && path[j].addr in g.hi && LeafOf(path) in t && t[LeafOf(path)].Leaf?
    && path[|path| - 1].pos < |t[LeafOf(path)].exts|
    && CutAt(t[LeafOf(path)].exts, path[|path| - 1].pos, x0) <= x < g.hi[path[j].addr]
  }

  ghost predicate SameFile(t: Tree, t': Tree) {
    forall x :: 0 <= x < EXT_MAX_BLOCKS ==> FileBlock(t', x) == FileBlock(t, x)
  }

  /** What is left of the file: exactly the lost blocks read as holes now. */
  ghost predicate Remains(t: Tree, g: Layout, path: seq<Step>, j: nat, x0: nat, t': Tree) {
    && (forall x :: 0 <= x < EXT_MAX_BLOCKS ==>
          FileBlock(t', x) == if Lost(t, g, path, j, x0, x) then None else FileBlock(t, x))
    && (SameFile(t, t') <==> AtEnd(t, path, j))
  }

  /** The outcome of an insertion that found no free block for the node it had to make. */
  ghost predicate RanOut(t: Tree, g: Layout, path: seq<Step>, free: nat, x0: nat, t': Tree) {
    && path != [] && free < FullLevels(t, path)
    && Remains(t, g, path, |path| - Splits(t, path, free), x0, t')
  }

  // ----- the pruned tree, node by node -----

  lemma {:induction false} PrunedKeys(t: Tree, path: seq<Step>, j: nat)
    ensures Pruned(t, path, j).Keys == t.Keys
    decreases |path| - j
  {
    if j < |path| {
      PrunedKeys(t, path, j + 1);
    }
  }

  lemma {:induction false} PrunedOff(t: Tree, path: seq<Step>, j: nat, a: nat)
    requires a in t && forall l :: j <= l < |path| ==> path[l].addr != a
    ensures a in Pruned(t, path, j) && Pruned(t, path, j)[a] == t[a]
    decreases |path| - j
  {
    if j < |path| {
      PrunedOff(t, path, j + 1, a);
    }
  }

  lemma {:induction false} PrunedAt(t: Tree, path: seq<Step>, j: nat, l: nat)
    requires Linked(t, path) && l < |path|
    ensures path[l].addr in t && path[l].addr in Pruned(t, path, j)
    ensures Pruned(t, path, j)[path[l].addr] == if l < j then t[path[l].addr] else Cropped(t[path[l].addr], path[l].pos)
    decreases |path| - j
  {
    assert LinkedAt(t, path, l);
    if j < |path| {
      PrunedAt(t, path, j + 1, l);
      if l != j {
        PathDistinct(t, path, if l < j then l else j, if l < j then j else l);
      }
    }
  }

  lemma {:induction false} PrunedNothing(t: Tree, path: seq<Step>, j: nat)
    requires AtEnd(t, path, j)
    ensures Pruned(t, path, j) == t
    decreases |path| - j
  {
    if j < |path| {
      PrunedNothing(t, path, j + 1);
      var n := t[path[j].addr];
      assert n.Leaf? ==> n.exts[..|n.exts|] == n.exts;
      assert n.Inner? ==> n.ents[..|n.ents|] == n.ents;
    }
  }

  // ----- reading the pruned tree -----

  /** The child a search goes to owns the block, and owns nothing its parent does not own. */
  lemma SlotChild(t: Tree, g: Layout, m: map<nat, nat>, a: nat, x: nat)
    requires ShapeOk(t, g, m) && a in t && t[a].Inner? && Placed(g, a) && g.lo[a] <= x < g.hi[a]
    ensures t[a].ents != []
    ensures var c := t[a].ents[IndexSlot(t[a].ents, x)].addr;
      && c in t && Placed(g, c) && g.lo[c] <= x < g.hi[c] && Depth(t[c]) + 1 == Depth(t[a])
      && g.lo[a] <= g.lo[c] && g.hi[c] <= g.hi[a]
  {
    assert NodeOk(t, g, m, a);
    var ents := t[a].ents;
    IndexSlotIs(ents, x);
    var r := IndexSlot(ents, x);
    assert ChildOk(t, g, a, t[a].depth, ents, r);
    assert ents[r].key <= ents[|ents| - 1].key;
    assert r > 0 ==> ents[0].key < ents[r].key;
    assert r + 1 < |ents| ==> ents[r + 1].key <= ents[|ents| - 1].key;
  }

  /** A subtree that is not responsible for `x0` holds no node of the path. */
  lemma {:induction false} ReadOff(t: Tree, g: Layout, m: map<nat, nat>, path: seq<Step>, j: nat, x0: nat, y0: nat,
                                   c: nat, x: nat)
    requires ShapeOk(t, g, m) && InRange(g, path, x0, y0) && c in t && Placed(g, c)
    requires g.lo[c] <= x < g.hi[c] && !(g.lo[c] <= x0 < g.hi[c])
    ensures Lookup(Pruned(t, path, j), c, Depth(t[c]), x) == Lookup(t, c, Depth(t[c]), x)
    decreases Depth(t[c])
  {
    hide ShapeOk, NodeOk;
    forall l | j <= l < |path| ensures path[l].addr != c {
      RangeOf(g, path, x0, y0, l);
    }
    PrunedOff(t, path, j, c);
    if t[c].Inner? {
      SlotChild(t, g, m, c, x);
      ReadOff(t, g, m, path, j, x0, y0, t[c].ents[IndexSlot(t[c].ents, x)].addr, x);
    }
  }

  /** The path goes down to a child whose range ends with the next key or with the parent's range. */
  lemma PathChild(t: Tree, g: Layout, m: map<nat, nat>, path: seq<Step>, x0: nat, y0: nat, l: nat)
    requires ShapeOk(t, g, m) && PathOk(t, g, path, x0, y0) && l + 1 < |path|
    ensures path[l].addr in t && path[l + 1].addr in t && path[l].addr in g.hi && path[l + 1].addr in g.hi
    ensures var n, pos := t[path[l].addr], path[l].pos;
      && n.Inner? && pos < |n.ents| && IndexSlot(n.ents, x0) == pos && SortedKeys(n.ents)
      && n.ents[pos].addr == path[l + 1].addr && (pos > 0 ==> n.ents[pos].key <= x0)
      && g.hi[path[l + 1].addr] == (if pos + 1 < |n.ents| then n.ents[pos + 1].key else g.hi[path[l].addr])
      && g.hi[path[l + 1].addr] <= g.hi[path[l].addr]
      && (pos + 1 < |n.ents| ==> g.hi[path[l + 1].addr] < g.hi[path[l].addr])
  {
    assert LinkedAt(t, path, l) && LinkedAt(t, path, l + 1);
    RangeOf(g, path, x0, y0, l);
    PathSlot(t, g, m, path, x0, y0, l);
    var a := path[l].addr;
    assert NodeOk(t, g, m, a);
    var ents, pos := t[a].ents, path[l].pos;
    assert ChildOk(t, g, a, t[a].depth, ents, pos);
    IndexSlotIs(ents, x0);
    assert pos + 1 < |ents| ==> ents[pos + 1].key <= ents[|ents| - 1].key;
  }

  lemma {:induction false} HiChain(t: Tree, g: Layout, m: map<nat, nat>, path: seq<Step>, x0: nat, y0: nat, i: nat,
                                   j: nat)
    requires ShapeOk(t, g, m) && PathOk(t, g, path, x0, y0) && i <= j < |path|
    ensures path[i].addr in g.hi && path[j].addr in g.hi && g.hi[path[j].addr] <= g.hi[path[i].addr]
    decreases j - i
  {
    RangeOf(g, path, x0, y0, i);
    if i < j {
      HiChain(t, g, m, path, x0, y0, i + 1, j);
      PathChild(t, g, m, path, x0, y0, i);
    }
  }

  /** What the split starts from: a leaf that can be cut at `k`, behind the extent the search ended at. */
  ghost predicate Cuts(t: Tree, g: Layout, m: map<nat, nat>, path: seq<Step>, x0: nat, y0: nat, k: nat) {
    && ShapeOk(t, g, m) && PathOk(t, g, path, x0, y0)
    && path[|path| - 1].pos < |t[LeafOf(path)].exts|
    && LeafOf(path) in g.lo && Placed(g, LeafOf(path)) &&
        SplitsLeaf(g, LeafOf(path), t[LeafOf(path)].exts, path[|path| - 1].pos, k)
    && x0 <= k
  }

  /** Behind the cut, the cut nodes find nothing. */
  lemma {:induction false} ReadBehind(t: Tree, g: Layout, m: map<nat, nat>, path: seq<Step>, x0: nat, y0: nat, k: nat,
                                      j: nat, l: nat, x: nat)
    requires Cuts(t, g, m, path, x0, y0, k) && j <= l < |path| && k <= x
    ensures Lookup(Pruned(t, path, j), path[l].addr, |path| - 1 - l, x) == None
    decreases |path| - l
  {
    hide ShapeOk, NodeOk, InRange;
    LinkOf(t, path, l);
    PrunedAt(t, path, j, l);
    var n, pos := t[path[l].addr], path[l].pos;
    if l + 1 < |path| {
      PathChild(t, g, m, path, x0, y0, l);
      IndexSlotUnique(n.ents[..pos + 1], x, pos);
      ReadBehind(t, g, m, path, x0, y0, k, j, l + 1, x);
    } else {
      ExtentSlotUnique(n.exts[..pos + 1], x, pos);
    }
  }

  lemma CropLeaf(exts: seq<Extent>, p: nat, k: nat, x: nat)
    requires Sorted(exts) && p < |exts| && x < k && (p + 1 < |exts| ==> k == exts[p + 1].first)
    requires forall i :: 0 <= i < |exts| ==> exts[i].len >= 1
    ensures LeafLookup(exts[..p + 1], x) == LeafLookup(exts, x)
  {
    if p + 1 < |exts| {
      ExtentSlotIs(exts, x);
      var r := ExtentSlot(exts, x);
      forall i | r < i < p + 1 ensures x < exts[i].first {
        assert i > r + 1 ==> exts[r + 1].first + exts[r + 1].len <= exts[i].first;
      }
      ExtentSlotUnique(exts[..p + 1], x, r);
    } else {
      assert exts[..p + 1] == exts;
    }
  }

  lemma CropSlot(ents: seq<Index>, pos: nat, x: nat)
    requires SortedKeys(ents) && pos < |ents| && (pos + 1 < |ents| ==> x < ents[pos + 1].key)
    ensures var r := IndexSlot(ents, x);
      r <= pos && IndexSlot(ents[..pos + 1], x) == r
  {
    IndexSlotIs(ents, x);
    var r := IndexSlot(ents, x);
    if pos + 1 < |ents| {
      forall i | r < i < pos + 1 ensures x < ents[i].key {
        assert i > r + 1 ==> ents[r + 1].key < ents[i].key;
      }
      IndexSlotUnique(ents[..pos + 1], x, r);
    } else {
      assert ents[..pos + 1] == ents;
    }
  }

  /** Two children that a search for different blocks goes to do not share a block. */
  lemma SlotsApart(t: Tree, g: Layout, m: map<nat, nat>, a: nat, x: nat, x0: nat)
    requires ShapeOk(t, g, m) && a in t && t[a].Inner? && Placed(g, a) && g.lo[a] <= x < g.hi[a] &&
      g.lo[a] <= x0 < g.hi[a]
    requires IndexSlot(t[a].ents, x) != IndexSlot(t[a].ents, x0)
    ensures t[a].ents != []
    ensures var c, c0 := t[a].ents[IndexSlot(t[a].ents, x)].addr, t[a].ents[IndexSlot(t[a].ents, x0)].addr;
      && c in g.lo && c in g.hi && c0 in g.lo && c0 in g.hi
      && (if x < x0 then g.hi[c] <= x0 && g.hi[c] <= g.lo[c0] else x0 < g.lo[c] && g.hi[c0] <= g.lo[c])
  {
    SlotChild(t, g, m, a, x);
    SlotChild(t, g, m, a, x0);
    assert NodeOk(t, g, m, a);
    var r, r0 := IndexSlot(t[a].ents, x), IndexSlot(t[a].ents, x0);
    if r < r0 {
      ChildrenInOrder(t, g, a, t[a].depth, t[a].ents, r, r0);
    } else {
      ChildrenInOrder(t, g, a, t[a].depth, t[a].ents, r0, r);
    }
  }

  /** Reading down from level `l` of the path. */
  lemma {:induction false} ReadAlong(t: Tree, g: Layout, m: map<nat, nat>, path: seq<Step>, x0: nat, y0: nat, k: nat,
                                     j: nat, l: nat, x: nat)
    requires Cuts(t, g, m, path, x0, y0, k) && j < |path| && l < |path|
    requires path[l].addr in g.lo && path[l].addr in g.hi && path[j].addr in g.hi
    requires g.lo[path[l].addr] <= x < g.hi[path[l].addr]
    ensures Lookup(Pruned(t, path, j), path[l].addr, |path| - 1 - l, x) ==
      if k <= x && (l >= j || x < g.hi[path[j].addr]) then None else Lookup(t, path[l].addr, |path| - 1 - l, x)
    decreases |path| - l
  {
    hide ShapeOk, NodeOk, InRange;
    LinkOf(t, path, l);
    RangeOf(g, path, x0, y0, l);
    PrunedAt(t, path, j, l);
    var a, n, pos := path[l].addr, t[path[l].addr], path[l].pos;
    if l >= j && k <= x {
      ReadBehind(t, g, m, path, x0, y0, k, j, l, x);
    } else if l + 1 == |path| {
      LeafFacts(t, g, m, a);
      CropLeaf(n.exts, pos, k, x);
    } else {
      PathChild(t, g, m, path, x0, y0, l);
      HiChain(t, g, m, path, x0, y0, l + 1, |path| - 1);
      if l >= j {
        CropSlot(n.ents, pos, x);
      } else {
        HiChain(t, g, m, path, x0, y0, l + 1, j);
      }
      SlotChild(t, g, m, a, x);
      var r := IndexSlot(n.ents, x);
      if r == pos {
        ReadAlong(t, g, m, path, x0, y0, k, j, l + 1, x);
      } else {
        SlotsApart(t, g, m, a, x, x0);
        ReadOff(t, g, m, path, j, x0, y0, n.ents[r].addr, x);
      }
    }
  }

  lemma LeafFacts(t: Tree, g: Layout, m: map<nat, nat>, a: nat)
    requires ShapeOk(t, g, m) && a in t && t[a].Leaf?
    ensures Sorted(t[a].exts) && forall i :: 0 <= i < |t[a].exts| ==> t[a].exts[i].len >= 1
  {
    assert NodeOk(t, g, m, a);
    forall i | 0 <= i < |t[a].exts| ensures t[a].exts[i].len >= 1 {
      assert ExtentOk(g, m, a, t[a].exts[i]);
    }
  }

  // ----- what is lost -----

  lemma RootRange(t: Tree, g: Layout, m: map<nat, nat>)
    requires ShapeOk(t, g, m)
    ensures 0 in t && 0 in g.lo && 0 in g.hi && g.lo[0] == 0 && g.hi[0] == EXT_MAX_BLOCKS
    ensures forall x :: x in m ==> x < EXT_MAX_BLOCKS
  {
  }

  lemma HiIsMapped(blockCap: nat, t: Tree, g: Layout, m: map<nat, nat>, a: nat)
    requires RestOk(blockCap, t, g, m, 0, 0, EXT_MAX_BLOCKS) && a in t && a in g.hi && g.hi[a] < EXT_MAX_BLOCKS
    ensures g.hi[a] in m
  {
  }

  lemma NotAtEnd(t: Tree, path: seq<Step>, j: nat) returns (l: nat)
    requires Linked(t, path) && !AtEnd(t, path, j)
    ensures j <= l < |path| && path[l].addr in t && path[l].pos + 1 != Size(t[path[l].addr])
  {
    forall l | j <= l < |path| ensures path[l].addr in t {
      LinkOf(t, path, l);
    }
    l :| j <= l < |path| && path[l].pos + 1 != Size(t[path[l].addr]);
  }

  /** If some node was not at its last entry, a mapped block lies behind the cut. */
  lemma LosesSome(blockCap: nat, t: Tree, g: Layout, m: map<nat, nat>, path: seq<Step>, e: Extent,
                  j: nat) returns (x: nat)
    requires TreeOk(blockCap, t, g, m) && PathOk(t, g, path, e.first, e.first + e.len)
    requires Fits(g, m, LeafOf(path), e) && |t[LeafOf(path)].exts| >= 2
    requires j < |path| && !AtEnd(t, path, j)
    ensures x in m && Lost(t, g, path, j, e.first, x)
  {
    hide ShapeOk, RestOk, InRange, Linked, AtEnd;
    CutFacts(t, g, m, path, e);
    var l := NotAtEnd(t, path, j);
    LinkOf(t, path, l);
    HiChain(t, g, m, path, e.first, e.first + e.len, j, l);
    if l + 1 == |path| {
      x := t[LeafOf(path)].exts[path[l].pos + 1].first;
    } else {
      PathChild(t, g, m, path, e.first, e.first + e.len, l);
      HiChain(t, g, m, path, e.first, e.first + e.len, l + 1, |path| - 1);
      RangeOf(g, path, e.first, e.first + e.len, l);
      x := g.hi[path[l + 1].addr];
      HiIsMapped(blockCap, t, g, m, path[l + 1].addr);
    }
  }

  /** The file after a split that stopped with the levels from `j` down cut. */
  lemma PrunedRemains(blockCap: nat, t: Tree, g: Layout, m: map<nat, nat>, path: seq<Step>, e: Extent, j: nat)
    requires TreeOk(blockCap, t, g, m) && PathOk(t, g, path, e.first, e.first + e.len)
    requires Fits(g, m, LeafOf(path), e) && |t[LeafOf(path)].exts| >= 2
    ensures Remains(t, g, path, j, e.first, Pruned(t, path, j))
  {
    hide ShapeOk, RestOk, InRange, Linked;
    var t' := Pruned(t, path, j);
    if j >= |path| {
      return;
    }
    CutFacts(t, g, m, path, e);
    var k := CutAt(t[LeafOf(path)].exts, path[|path| - 1].pos, e.first);
    RangeOf(g, path, e.first, e.first + e.len, |path| - 1);
    RangeOf(g, path, e.first, e.first + e.len, j);
    RangeOf(g, path, e.first, e.first + e.len, 0);
    LinkOf(t, path, 0);
    RootRange(t, g, m);
    PrunedAt(t, path, j, 0);
    HiChain(t, g, m, path, e.first, e.first + e.len, 0, j);
    assert Depth(t'[0]) == Depth(t[0]);
    forall x | 0 <= x < EXT_MAX_BLOCKS
      ensures FileBlock(t', x) == if Lost(t, g, path, j, e.first, x) then None else FileBlock(t, x)
    {
      ReadAlong(t, g, m, path, e.first, e.first + e.len, k, j, 0, x);
    }
    if AtEnd(t, path, j) {
      PrunedNothing(t, path, j);
    } else {
      var x := LosesSome(blockCap, t, g, m, path, e, j);
      FileBlockIsMap(t, g, m, x);
      assert FileBlock(t', x) != FileBlock(t, x);
    }
  }

  // ----- after the root has grown -----

  /** Below the moved root the search takes the same steps as before. */
  lemma GrownStep(t: Tree, g: Layout, m: map<nat, nat>, n: nat, blockCap: nat, path: seq<Step>, path': seq<Step>,
                  x: nat, y: nat, y': nat, l: nat)
    requires ShapeOk(t, g, m) && PathOk(t, g, path, x, y) && HasKey(t[0]) && n != 0 && n !in t && 1 <= l < |path|
    requires var t', g' := Grown(t, n, blockCap), GrownLayout(g, n);
      ShapeOk(t', g', m) && AllHang(t', g', 0) && PathOk(t', g', path', x, y') && |path'| == |path| + 1
    ensures path'[l + 1] == path[l] && path[l].addr in t && path[l].addr in Grown(t, n, blockCap)
    ensures Grown(t, n, blockCap)[path[l].addr] == t[path[l].addr]
    ensures path[l].addr in g.hi && path[l].addr in GrownLayout(g, n).hi &&
      GrownLayout(g, n).hi[path[l].addr] == g.hi[path[l].addr]
  {
    hide ShapeOk, AllHang, InRange;
    var t', g' := Grown(t, n, blockCap), GrownLayout(g, n);
    PathDistinct(t, path, 0, l);
    LinkOf(t, path, l);
    LinkOf(t', path', l + 1);
    RangeOf(g, path, x, y, l);
    RangeOf(g', path', x, y', l + 1);
    SameNodeAt(t', g', m, path', l + 1, path[l].addr, x);
    if l + 1 < |path| {
      PathSlot(t, g, m, path, x, y, l);
      PathSlot(t', g', m, path', x, y', l + 1);
    } else {
      LeafFacts(t, g, m, path[l].addr);
      if t[path[l].addr].exts != [] {
        SlotIs(t[path[l].addr].exts, path[l].pos, x);
        SlotIs(t[path[l].addr].exts, path'[l + 1].pos, x);
      }
    }
  }

  /** A loss below the moved root, told in terms of the tree before it grew. */
  lemma GrownRemains(t: Tree, g: Layout, m: map<nat, nat>, n: nat, blockCap: nat, path: seq<Step>, path': seq<Step>,
                     x: nat, y: nat, y': nat, j: nat, after: Tree)
    requires ShapeOk(t, g, m) && PathOk(t, g, path, x, y) && HasKey(t[0]) && n != 0 && n !in t && 1 <= j <= |path|
    requires var t', g' := Grown(t, n, blockCap), GrownLayout(g, n);
      ShapeOk(t', g', m) && AllHang(t', g', 0) && PathOk(t', g', path', x, y') && |path'| == |path| + 1
      && Remains(t', g', path', j + 1, x, after)
    ensures Remains(t, g, path, j, x, after)
    ensures AtEnd(Grown(t, n, blockCap), path', j + 1) <==> AtEnd(t, path, j)
  {
    hide ShapeOk, AllHang, PathOk;
    RootRange(t, g, m);
    var t', g' := Grown(t, n, blockCap), GrownLayout(g, n);
    forall z | 0 <= z < EXT_MAX_BLOCKS ensures FileBlock(t', z) == FileBlock(t, z) {
      FileBlockIsMap(t, g, m, z);
      FileBlockIsMap(t', g', m, z);
    }
    forall l | j <= l < |path|
      ensures path'[l + 1] == path[l] && path[l].addr in t && path[l].addr in t' && t'[path[l].addr] == t[path[l].addr]
    {
      GrownStep(t, g, m, n, blockCap, path, path', x, y, y', l);
    }
    assert AtEnd(t', path', j + 1) <==> AtEnd(t, path, j) by {
      forall l | j + 1 <= l < |path'| ensures path'[l] == path[l - 1] {
        var i := l - 1;
        assert path'[i + 1] == path[i];
      }
    }
    if j < |path| {
      GrownStep(t, g, m, n, blockCap, path, path', x, y, y', j);
      GrownStep(t, g, m, n, blockCap, path, path', x, y, y', |path| - 1);
    }
    forall z | 0 <= z < EXT_MAX_BLOCKS ensures Lost(t', g', path', j + 1, x, z) <==> Lost(t, g, path, j, x, z) {
    }
  }

  // ----- the split loop -----

  /** The old nodes while the levels above `i` are still to be split. */
  ghost predicate HalfSplit(t0: Tree, t: Tree, path: seq<Step>, i: nat, rs: seq<nat>) {
    && t.Keys == t0.Keys + (set r | r in rs) && (forall r :: r in rs ==> r !in t0)
    && forall a :: a in t0 ==> a in t && a in Pruned(t0, path, i) && t[a] == Pruned(t0, path, i)[a]
  }

  lemma HalfLeaf(t: Tree, path: seq<Step>, r: nat, blockCap: nat)
    requires path != [] && LinkedAt(t, path, |path| - 1) && r !in t && path[|path| - 1].pos < |t[LeafOf(path)].exts|
    ensures HalfSplit(t, LeafSplit(t, LeafOf(path), path[|path| - 1].pos, r, blockCap), path, |path| - 1, [r])
  {
    PrunedKeys(t, path, |path| - 1);
    assert Pruned(t, path, |path|) == t;
  }

  lemma HalfInner(t0: Tree, t: Tree, path: seq<Step>, i: nat, rs: seq<nat>, k: nat, r0: nat, r: nat, blockCap: nat)
    requires Linked(t0, path) && i + 1 < |path| && HalfSplit(t0, t, path, i + 1, rs) && r !in t
    requires path[i].addr in t0 && path[i].addr in t && t[path[i].addr] == t0[path[i].addr]
    requires t[path[i].addr].Inner? && path[i].pos < |t[path[i].addr].ents|
    ensures HalfSplit(t0, InnerSplit(t, path[i].addr, path[i].pos, k, r0, r, blockCap), path, i, [r] + rs)
  {
    PrunedKeys(t0, path, i);
    PrunedKeys(t0, path, i + 1);
  }

  /** Freeing the new nodes leaves the pruned tree. */
  lemma FreedHalf(t0: Tree, t: Tree, path: seq<Step>, i: nat, rs: seq<nat>)
    requires i < |path| && (if i + 1 == |path| then t == t0 && rs == [] else HalfSplit(t0, t, path, i + 1, rs))
    ensures (map a | a in t && a !in rs :: t[a]) == Pruned(t0, path, i + 1)
  {
    PrunedKeys(t0, path, i + 1);
  }

  /** With no free block at all nothing has happened yet. */
  lemma Untouched(t: Tree, g: Layout, path: seq<Step>, x0: nat)
    requires path != [] && FullLevels(t, path) > 0
    ensures RanOut(t, g, path, 0, x0, t)
  {
  }

  lemma PrunedSame(t: Tree, g: Layout, path: seq<Step>, j: nat, x0: nat)
    requires Remains(t, g, path, j, x0, Pruned(t, path, j))
    ensures SameFile(t, Pruned(t, path, j)) ==> Pruned(t, path, j) == t
  {
    if AtEnd(t, path, j) {
      PrunedNothing(t, path, j);
    }
  }

  /** The split after the root has grown, with one block less. */
  lemma GrownLoss(blockCap: nat, t: Tree, g: Layout, m: map<nat, nat>, n: nat, path: seq<Step>, path': seq<Step>,
                  e: Extent, free: nat, after: Tree)
    requires TreeOk(blockCap, t, g, m) && PathOk(t, g, path, e.first, e.first + e.len) && HasKey(t[0]) && n != 0 &&
      n !in t
    requires var t', g' := Grown(t, n, blockCap), GrownLayout(g, n);
      && TreeOk(blockCap, t', g', m) && PathOk(t', g', path', e.first, e.first + e.len) && |path'| == |path| + 1
      && free + 1 < |path| && Remains(t', g', path', |path'| - free, e.first, after)
    requires FullLevels(t, path) == |path|
    ensures RanOut(t, g, path, free + 1, e.first, after)
    ensures SameFile(t, after) <==> SameFile(Grown(t, n, blockCap), after)
  {
    hide ShapeOk, PathOk, CapOk, NonEmpty, HiMapped, AllHang;
    GrownRemains(t, g, m, n, blockCap, path, path', e.first, e.first + e.len, e.first + e.len, |path| - free, after);
  }
}
