/**
 * The state of a multi-level split between two levels, and its three transitions:
 * splitting the leaf, splitting an index node, and linking the topmost new node.
 */
module ExtentSplit {
  import opened ExtentNodes
  import opened ExtentSteps
  import opened ExtentLeaf
  import opened ExtentPath

  /** What the split leaves open: an empty new leaf that starts at the new extent, or nothing. */
  ghost predicate OpenOk(t: Tree, m: map<nat, nat>, rs: seq<nat>, k: nat, x: nat, hollow: nat, kh: nat) {
    && rs != [] && rs[|rs| - 1] in t && t[rs[|rs| - 1]].Leaf?
    && (if k == x
        then hollow == rs[|rs| - 1] && kh == k && t[hollow].exts == []
        else hollow == 0 && kh == EXT_MAX_BLOCKS && k in m)
  }

  /** All levels below `i` are split; the entry (k, rs[0]) is due at level `i`. */
  ghost predicate SplitState(blockCap: nat, t: Tree, g: Layout, m: map<nat, nat>, path: seq<Step>, i: nat,
                             rs: seq<nat>, k: nat, x: nat, y: nat, hollow: nat, kh: nat)
  {
    && SplitBelow(t, g, path, i, rs, k, x, y)
    && LinkedAt(t, path, i)
    && ShapeOkWith(t, g, m, path[i].addr, WithEntry(t[path[i].addr].ents, path[i].pos, k, rs[0]))
    && RestOk(blockCap, t, g, m, rs[0], hollow, kh)
    && OpenOk(t, m, rs, k, x, hollow, kh)
    && (x < k ==> y <= k)
  }

  /** The block at which a full leaf is cut: the next extent, or the new one if there is none. */
  function CutAt(exts: seq<Extent>, p: nat, x: nat): nat
    requires p < |exts|
  {
    if p + 1 < |exts| then exts[p + 1].first else x
  }

  lemma CutFacts(t: Tree, g: Layout, m: map<nat, nat>, path: seq<Step>, e: Extent)
    requires ShapeOk(t, g, m) && PathOk(t, g, path, e.first, e.first + e.len)
    requires var a := path[|path| - 1].addr;
      Fits(g, m, a, e) && |t[a].exts| >= 2
    ensures var a, p := path[|path| - 1].addr, path[|path| - 1].pos;
      p < |t[a].exts| &&
      var k := CutAt(t[a].exts, p, e.first);
      && SplitsLeaf(g, a, t[a].exts, p, k) && g.lo[a] < k
      && (if p + 1 < |t[a].exts| then k in m && e.first < k && e.first + e.len <= k else k == e.first)
  {
    var a, p := path[|path| - 1].addr, path[|path| - 1].pos;
    var exts := t[a].exts;
    SlotFacts(t, g, m, path, e);
    assert ExtentOk(g, m, a, exts[p]);
    if p + 1 < |exts| {
      assert ExtentOk(g, m, a, exts[p + 1]);
      assert Covers(exts[p + 1], exts[p + 1].first);
      Apart(g, m, a, exts[p + 1], e);
    } else {
      Apart(g, m, a, exts[p], e);
    }
  }

  lemma SplitStateLeaf(blockCap: nat, t: Tree, g: Layout, m: map<nat, nat>, path: seq<Step>, e: Extent, r: nat)
    requires ShapeOk(t, g, m) && RestOk(blockCap, t, g, m, 0, 0, EXT_MAX_BLOCKS)
    requires PathOk(t, g, path, e.first, e.first + e.len) && |path| > 1
    requires r !in t && r != 0
    requires Fits(g, m, path[|path| - 1].addr, e) && |t[path[|path| - 1].addr].exts| >= 2
    ensures var a, p := path[|path| - 1].addr, path[|path| - 1].pos;
      p < |t[a].exts| && a in g.hi && a in g.up &&
      var k := CutAt(t[a].exts, p, e.first);
      SplitState(blockCap, LeafSplit(t, a, p, r, blockCap), SplitLayout(g, a, r, k, {}), m, path, |path| - 2,
                 [r], k, e.first, e.first + e.len,
                 if k == e.first then r else 0, if k == e.first then k else EXT_MAX_BLOCKS)
  {
    hide ShapeOk, ShapeOkWith, RestOk, SplitBelow, Linked, InRange;
    var depth := |path| - 1;
    var a, p := path[depth].addr, path[depth].pos;
    var q, pos := path[depth - 1].addr, path[depth - 1].pos;
    CutFacts(t, g, m, path, e);
    var k := CutAt(t[a].exts, p, e.first);
    NodeOf(t, g, m, a);
    LinkOf(t, path, depth - 1);
    PathDistinct(t, path, 0, depth);
    LinkOf(t, path, 0);
    PathDistinct(t, path, depth - 1, depth);
    LeafSplitKeeps(t, g, m, a, p, k, r, blockCap, q, pos);
    LeafSplitRest(t, g, m, a, p, k, r, blockCap);
    SplitBelowLeaf(t, g, path, p, r, blockCap, k, e.first, e.first + e.len);
    BelowLinkOf(LeafSplit(t, a, p, r, blockCap), SplitLayout(g, a, r, k, {}), path, depth - 1, [r], k,
                e.first, e.first + e.len, depth - 1);
  }

  lemma NodeOf(t: Tree, g: Layout, m: map<nat, nat>, a: nat)
    requires ShapeOk(t, g, m) && a in t
    ensures NodeOk(t, g, m, a)
  {
  }

  lemma LinkOf(t: Tree, path: seq<Step>, i: nat)
    requires Linked(t, path) && i < |path|
    ensures LinkedAt(t, path, i) && path[0].addr == 0
  {
  }

  lemma BelowLinkOf(t: Tree, g: Layout, path: seq<Step>, i: nat, rs: seq<nat>, k: nat, x: nat, y: nat, j: nat)
    requires SplitBelow(t, g, path, i, rs, k, x, y) && j < |path|
    ensures LinkedAt(t, path, j) && i + 1 < |path| && |rs| == |path| - 1 - i
  {
  }

  lemma SplitStateInner(blockCap: nat, t: Tree, g: Layout, m: map<nat, nat>, path: seq<Step>, i: nat, rs: seq<nat>,
                        k: nat, x: nat, y: nat, hollow: nat, kh: nat, r: nat)
    requires SplitState(blockCap, t, g, m, path, i, rs, k, x, y, hollow, kh) && 0 < i
    requires r !in t && r != 0
    ensures var a, pos := path[i].addr, path[i].pos;
      a in g.hi && a in g.up &&
      SplitState(blockCap, InnerSplit(t, a, pos, k, rs[0], r, blockCap),
                 SplitLayout(g, a, r, k, MovedChildren(t[a].ents, pos, rs[0])), m, path, i - 1,
                 [r] + rs, k, x, y, hollow, kh)
  {
    hide ShapeOk, ShapeOkWith, RestOk, SplitBelow;
    var a, pos := path[i].addr, path[i].pos;
    var q, qpos := path[i - 1].addr, path[i - 1].pos;
    BelowLinkOf(t, g, path, i, rs, k, x, y, i - 1);
    BelowDistinct(t, g, path, i, rs, k, x, y);
    InnerSplitKeeps(t, g, m, a, pos, k, rs[0], r, blockCap, q, qpos);
    DueInState(t, g, m, a, pos, k, rs[0]);
    InnerSplitRest(t, g, m, a, pos, k, rs[0], r, blockCap, hollow, kh);
    SplitBelowInner(t, g, path, i, rs, r, blockCap, k, x, y);
    BelowLinkOf(InnerSplit(t, a, pos, k, rs[0], r, blockCap),
                SplitLayout(g, a, r, k, MovedChildren(t[a].ents, pos, rs[0])), path, i - 1, [r] + rs, k, x, y, i - 1);
    assert ([r] + rs)[|rs|] == rs[|rs| - 1];
    assert t[a].Inner?;
  }

  lemma BelowDistinct(t: Tree, g: Layout, path: seq<Step>, i: nat, rs: seq<nat>, k: nat, x: nat, y: nat)
    requires SplitBelow(t, g, path, i, rs, k, x, y) && 0 < i
    ensures i + 1 < |path| && |rs| == |path| - 1 - i
    ensures path[i].addr != 0 && path[i - 1].addr != path[i].addr && 0 in t
    ensures path[i].addr in t && Depth(t[path[i].addr]) < Depth(t[0])
  {
    assert LinkedAt(t, path, i) && LinkedAt(t, path, 0);
    PathDistinct(t, path, 0, i);
    PathDistinct(t, path, i - 1, i);
  }

  lemma DueInState(t: Tree, g: Layout, m: map<nat, nat>, a: nat, pos: nat, k: nat, r0: nat)
    requires a in t && t[a].Inner? && pos < |t[a].ents|
    requires ShapeOkWith(t, g, m, a, WithEntry(t[a].ents, pos, k, r0))
    ensures Placed(g, a) && InnerOk(t, g, a, t[a].depth, WithEntry(t[a].ents, pos, k, r0))
    ensures g.lo[a] < k < g.hi[a] && r0 != 0 && r0 in t && r0 in g.up && g.up[r0] == a && r0 != a
    ensures Depth(t[r0]) < Depth(t[a]) && t[a].ents[pos].key < k
  {
    hide InnerOk;
    DueEntry(t, g, a, pos, k, r0);
  }

  /** The entry that is due lies strictly inside the range of its node. */
  lemma DueEntry(t: Tree, g: Layout, a: nat, pos: nat, k: nat, r0: nat)
    requires a in t && t[a].Inner? && pos < |t[a].ents| && Placed(g, a)
    requires InnerOk(t, g, a, t[a].depth, WithEntry(t[a].ents, pos, k, r0))
    ensures g.lo[a] < k < g.hi[a] && r0 != 0 && r0 in t && r0 in g.up && g.up[r0] == a && r0 != a
    ensures Depth(t[r0]) < Depth(t[a])
    ensures t[a].ents[pos].key < k
  {
    var v := WithEntry(t[a].ents, pos, k, r0);
    WithEntryAt(t[a].ents, pos, k, r0, pos);
    WithEntryAt(t[a].ents, pos, k, r0, pos + 1);
    assert ChildOk(t, g, a, t[a].depth, v, pos + 1);
    assert v[0].key < v[pos + 1].key <= v[|v| - 1].key;
  }

  /** Linking the topmost new node completes the tree; the search path follows the new extent. */
  lemma SplitStateLink(blockCap: nat, t: Tree, g: Layout, m: map<nat, nat>, path: seq<Step>, i: nat, rs: seq<nat>,
                       k: nat, x: nat, y: nat, hollow: nat, kh: nat)
    requires SplitState(blockCap, t, g, m, path, i, rs, k, x, y, hollow, kh) && x < y
    requires |t[path[i].addr].ents| < t[path[i].addr].cap
    ensures var q := path[i].addr;
      var t' := t[q := t[q].(ents := WithEntry(t[q].ents, path[i].pos, k, rs[0]))];
      var path' := if x < k then path else RightPath(path, i, rs);
      && t[q].ents[path[i].pos].key < k
      && ShapeOk(t', g, m) && RestOk(blockCap, t', g, m, 0, hollow, kh)
      && Linked(t', path') && InRange(g, path', x, y)
  {
    var q := path[i].addr;
    DueEntry(t, g, q, path[i].pos, k, rs[0]);
    SetEntries(t, g, m, q, WithEntry(t[q].ents, path[i].pos, k, rs[0]));
    hide ShapeOk, ShapeOkWith;
    assert LinkedAt(t, path, i) && LinkedAt(t, path, 0);
    LinkRest(t, g, m, q, path[i].pos, k, rs[0], blockCap, hollow, kh);
    hide RestOk;
    if x < k {
      LinkedLeft(t, g, path, i, rs, k, x, y);
    } else {
      LinkedRight(t, g, path, i, rs, k, x, y);
    }
  }

  /** How a new extent got into its leaf. */
  datatype Way = NotDone | Separate | MergedAfter | MergedBefore

  function LeafOf(path: seq<Step>): nat
    requires path != []
  {
    path[|path| - 1].addr
  }

  /** Which way a new extent takes into a leaf whose search ended at position `p`. */
  function LeafWay(n: Node, p: nat, e: Extent): Way
    requires n.Leaf? && (n.exts != [] ==> p < |n.exts|)
  {
    if n.exts != [] && CanAppend(n.exts[p], e) then MergedAfter
    else if n.exts != [] && CanPrepend(n.exts[p], e) then MergedBefore
    else if |n.exts| == n.cap then NotDone
    else Separate
  }

  /** The tree is whole again, the path leads to a leaf with room, and the new extent goes in separately. */
  ghost predicate AfterSplit(blockCap: nat, t: Tree, g: Layout, m: map<nat, nat>, path: seq<Step>, e: Extent,
                             hollow: nat, kh: nat)
  {
    && ShapeOk(t, g, m) && RestOk(blockCap, t, g, m, 0, hollow, kh)
    && PathOk(t, g, path, e.first, e.first + e.len)
    && Fits(g, m, LeafOf(path), e)
    && HollowOk(t, g, LeafOf(path), hollow, kh, e.first)
    && LeafWay(t[LeafOf(path)], path[|path| - 1].pos, e) == Separate
  }

  /** Loop state of the split: `SplitState`, the levels still to come untouched, the leaf cut. */
  ghost predicate SplitLoop(blockCap: nat, t0: Tree, t: Tree, g: Layout, m: map<nat, nat>, path: seq<Step>, i: nat,
                            rs: seq<nat>, e: Extent, hollow: nat, kh: nat)
    requires path != [] && LeafOf(path) in t0 && t0[LeafOf(path)].Leaf?
  {
    var a, p := LeafOf(path), path[|path| - 1].pos;
    && p < |t0[a].exts| && i < |path| - 1
    && SplitState(blockCap, t, g, m, path, i, rs, CutAt(t0[a].exts, p, e.first), e.first, e.first + e.len, hollow, kh)
    && (forall j :: 0 <= j <= i ==> path[j].addr in t0 && path[j].addr in t && t[path[j].addr] == t0[path[j].addr])
    && a in t && t[a] == t0[a].(exts := t0[a].exts[..p + 1])
  }

  lemma SplitLoopStart(blockCap: nat, t: Tree, g: Layout, m: map<nat, nat>, path: seq<Step>, e: Extent, r: nat)
    requires ShapeOk(t, g, m) && RestOk(blockCap, t, g, m, 0, 0, EXT_MAX_BLOCKS)
    requires PathOk(t, g, path, e.first, e.first + e.len) && |path| > 1
    requires r !in t && r != 0
    requires Fits(g, m, LeafOf(path), e) && |t[LeafOf(path)].exts| >= 2
    ensures var a, p := LeafOf(path), path[|path| - 1].pos;
      p < |t[a].exts| && a in g.hi && a in g.up &&
      var k := CutAt(t[a].exts, p, e.first);
      SplitLoop(blockCap, t, LeafSplit(t, a, p, r, blockCap), SplitLayout(g, a, r, k, {}), m, path, |path| - 2,
                [r], e, if k == e.first then r else 0, if k == e.first then k else EXT_MAX_BLOCKS)
  {
    hide ShapeOk, RestOk, SplitState, InRange;
    SplitStateLeaf(blockCap, t, g, m, path, e, r);
    forall j | 0 <= j <= |path| - 2 ensures path[j].addr in t && path[j].addr != LeafOf(path) {
      assert LinkedAt(t, path, j);
      PathDistinct(t, path, j, |path| - 1);
    }
  }

  lemma SplitLoopStep(blockCap: nat, t0: Tree, t: Tree, g: Layout, m: map<nat, nat>, path: seq<Step>, i: nat,
                      rs: seq<nat>, e: Extent, hollow: nat, kh: nat, r: nat)
    requires path != [] && LeafOf(path) in t0 && t0[LeafOf(path)].Leaf?
    requires SplitLoop(blockCap, t0, t, g, m, path, i, rs, e, hollow, kh) && 0 < i
    requires r !in t && r != 0 && Linked(t0, path)
    ensures var a, pos := path[i].addr, path[i].pos;
      var k := CutAt(t0[LeafOf(path)].exts, path[|path| - 1].pos, e.first);
      a in t && t[a].Inner? && pos < |t[a].ents| && rs != [] && a in g.hi && a in g.up &&
      SplitLoop(blockCap, t0, InnerSplit(t, a, pos, k, rs[0], r, blockCap),
                SplitLayout(g, a, r, k, MovedChildren(t[a].ents, pos, rs[0])), m, path, i - 1,
                [r] + rs, e, hollow, kh)
  {
    hide SplitState;
    var k := CutAt(t0[LeafOf(path)].exts, path[|path| - 1].pos, e.first);
    SplitStateInner(blockCap, t, g, m, path, i, rs, k, e.first, e.first + e.len, hollow, kh, r);
    StateNode(blockCap, t, g, m, path, i, rs, k, e.first, e.first + e.len, hollow, kh);
    forall j | 0 <= j < |path| && j != i ensures path[j].addr != path[i].addr {
      assert LinkedAt(t0, path, j) && LinkedAt(t0, path, i);
    }
  }

  lemma StateNode(blockCap: nat, t: Tree, g: Layout, m: map<nat, nat>, path: seq<Step>, i: nat,
                  rs: seq<nat>, k: nat, x: nat, y: nat, hollow: nat, kh: nat)
    requires SplitState(blockCap, t, g, m, path, i, rs, k, x, y, hollow, kh)
    ensures i + 1 < |path| && path[i].addr in t && t[path[i].addr].Inner? && path[i].pos < |t[path[i].addr].ents|
    ensures rs != [] && |rs| == |path| - 1 - i
  {
  }

  lemma {:induction false} SplitLoopEnd(blockCap: nat, t0: Tree, t: Tree, g: Layout, m: map<nat, nat>,
                                        path: seq<Step>, i: nat, rs: seq<nat>, e: Extent, hollow: nat, kh: nat)
    requires path != [] && LeafOf(path) in t0 && t0[LeafOf(path)].Leaf?
    requires SplitLoop(blockCap, t0, t, g, m, path, i, rs, e, hollow, kh)
    requires e.len >= 1 && e.len <= EXT_INIT_MAX_LEN && (forall x :: Covers(e, x) ==> x !in m) && blockCap >= 2
    requires path[i].addr in t && t[path[i].addr].Inner? && |t[path[i].addr].ents| < t[path[i].addr].cap
    requires SlotOk(t0[LeafOf(path)].exts, path[|path| - 1].pos, e.first)
    requires LeafWay(t0[LeafOf(path)], path[|path| - 1].pos, e) == NotDone
    ensures var k := CutAt(t0[LeafOf(path)].exts, path[|path| - 1].pos, e.first);
      var q := path[i].addr;
      path[i].pos < |t[q].ents| && rs != [] && t[q].ents[path[i].pos].key < k &&
      var t' := t[q := t[q].(ents := WithEntry(t[q].ents, path[i].pos, k, rs[0]))];
      AfterSplit(blockCap, t', g, m, if e.first < k then path else RightPath(path, i, rs), e, hollow, kh)
  {
    hide SplitState, ShapeOk, RestOk, Linked, InRange;
    var a, p := LeafOf(path), path[|path| - 1].pos;
    var k := CutAt(t0[a].exts, p, e.first);
    var q, x, y := path[i].addr, e.first, e.first + e.len;
    StateNode(blockCap, t, g, m, path, i, rs, k, x, y, hollow, kh);
    SplitStateLink(blockCap, t, g, m, path, i, rs, k, x, y, hollow, kh);
    StateOpen(blockCap, t, g, m, path, i, rs, k, x, y, hollow, kh);
    var t' := t[q := t[q].(ents := WithEntry(t[q].ents, path[i].pos, k, rs[0]))];
    var path' := if x < k then path else RightPath(path, i, rs);
    LinkOf(t', path', |path'| - 1);
    RangeOf(g, path', x, y, |path'| - 1);
    if x < k {
      assert p + 1 < |t0[a].exts|;
    } else {
      assert LeafOf(path') == rs[|rs| - 1];
      RoomFacts(blockCap, t', g, m, LeafOf(path'), hollow, kh);
    }
  }

  lemma RangeOf(g: Layout, path: seq<Step>, x: nat, y: nat, i: nat)
    requires InRange(g, path, x, y) && i < |path|
    ensures Placed(g, path[i].addr) && g.lo[path[i].addr] <= x < y <= g.hi[path[i].addr]
  {
  }

  lemma StateOpen(blockCap: nat, t: Tree, g: Layout, m: map<nat, nat>, path: seq<Step>, i: nat,
                  rs: seq<nat>, k: nat, x: nat, y: nat, hollow: nat, kh: nat)
    requires SplitState(blockCap, t, g, m, path, i, rs, k, x, y, hollow, kh)
    ensures OpenOk(t, m, rs, k, x, hollow, kh)
    ensures rs[|rs| - 1] in g.lo && g.lo[rs[|rs| - 1]] == k
    ensures rs[|rs| - 1] != path[i].addr && rs[|rs| - 1] != 0
    ensures x < k ==> y <= k
  {
    assert RightAt(t, g, rs, k, y, |rs| - 1);
    assert LinkedAt(t, path, 0);
  }

  lemma SplitLoopNode(blockCap: nat, t0: Tree, t: Tree, g: Layout, m: map<nat, nat>, path: seq<Step>, i: nat,
                      rs: seq<nat>, e: Extent, hollow: nat, kh: nat)
    requires path != [] && LeafOf(path) in t0 && t0[LeafOf(path)].Leaf?
    requires SplitLoop(blockCap, t0, t, g, m, path, i, rs, e, hollow, kh)
    ensures i + 1 < |path| && LinkedAt(t, path, i) && path[i].addr in t0 && t[path[i].addr] == t0[path[i].addr]
    ensures rs != []
  {
    var k := CutAt(t0[LeafOf(path)].exts, path[|path| - 1].pos, e.first);
    assert SplitState(blockCap, t, g, m, path, i, rs, k, e.first, e.first + e.len, hollow, kh);
  }

  predicate NodeFull(t: Tree, a: nat) {
    a in t && (if t[a].Leaf? then |t[a].exts| else |t[a].ents|) == t[a].cap
  }

  /** A full root is not empty. */
  lemma FullHasKey(blockCap: nat, t: Tree, g: Layout, m: map<nat, nat>)
    requires TreeOk(blockCap, t, g, m) && NodeFull(t, 0)
    ensures HasKey(t[0])
  {
    hide NodeOk;
  }

  /** Two extents positions that both fit the search are the same. */
  lemma SlotUnique(g: Layout, m: map<nat, nat>, a: nat, exts: seq<Extent>, p: nat, q: nat, x: nat)
    requires Placed(g, a) && LeafOk(g, m, a, exts)
    requires SlotOk(exts, p, x) && SlotOk(exts, q, x)
    ensures p == q
  {
    if exts != [] {
      SlotIs(exts, p, x);
      SlotIs(exts, q, x);
    }
  }

  lemma SlotIs(exts: seq<Extent>, p: nat, x: nat)
    requires Sorted(exts) && exts != [] && SlotOk(exts, p, x)
    ensures ExtentSlot(exts, x) == p
  {
    forall j | p < j < |exts| ensures x < exts[j].first {
      assert p + 1 < j ==> exts[p + 1].first + exts[p + 1].len <= exts[j].first;
    }
    ExtentSlotUnique(exts, x, p);
  }

  /** No node of the path ends inside the blocks of a disjoint extent. */
  lemma WidenPath(t: Tree, g: Layout, m: map<nat, nat>, path: seq<Step>, e: Extent)
    requires PathOk(t, g, path, e.first, e.first + 1) && HiMapped(t, g, m, EXT_MAX_BLOCKS)
    requires e.len >= 1 && e.first + e.len <= EXT_MAX_BLOCKS && (forall x :: Covers(e, x) ==> x !in m)
    ensures PathOk(t, g, path, e.first, e.first + e.len)
  {
    forall i | 0 <= i < |path| ensures e.first + e.len <= g.hi[path[i].addr] {
      assert LinkedAt(t, path, i);
      var h := g.hi[path[i].addr];
      assert e.first < h < e.first + e.len ==> Covers(e, h);
    }
  }

  /** After growing, the search ends at the same leaf and position (or at the moved root). */
  lemma GrownPath(blockCap: nat, t: Tree, g: Layout, m: map<nat, nat>, n: nat, path: seq<Step>, path': seq<Step>,
                  e: Extent)
    requires TreeOk(blockCap, t, g, m) && PathOk(t, g, path, e.first, e.first + e.len)
    requires n != 0 && n !in t && HasKey(t[0]) && ROOT_CAP < blockCap
    requires var t', g' := Grown(t, n, blockCap), GrownLayout(g, n);
      TreeOk(blockCap, t', g', m) && PathOk(t', g', path', e.first, e.first + 1)
    requires Fits(g, m, LeafOf(path), e)
    requires LeafWay(t[LeafOf(path)], path[|path| - 1].pos, e) == NotDone
    ensures var t', g' := Grown(t, n, blockCap), GrownLayout(g, n);
      && |path'| == |path| + 1
      && PathOk(t', g', path', e.first, e.first + e.len)
      && Fits(g', m, LeafOf(path'), e)
      && path'[1].addr == n
      && (|path| == 1 ==> AfterSplit(blockCap, t', g', m, path', e, 0, EXT_MAX_BLOCKS))
      && (|path| > 1 ==>
            && LeafWay(t'[LeafOf(path')], path'[|path'| - 1].pos, e) == NotDone
            && t'[LeafOf(path')] == t[LeafOf(path)])
      && (t'[n].Inner? ==> |t'[n].ents| < t'[n].cap)
  {
    var t', g' := Grown(t, n, blockCap), GrownLayout(g, n);
    WidenPath(t', g', m, path', e);
    GrownLeaf(t, g, m, t', g', n, path, path', e, blockCap);
    RoomFacts(blockCap, t, g, m, 0, 0, EXT_MAX_BLOCKS);
    hide ShapeOk, RestOk;
    SlotFacts(t, g, m, path, e);
    SlotUnique(g, m, LeafOf(path), t[LeafOf(path)].exts, path[|path| - 1].pos, path'[|path'| - 1].pos, e.first);
  }

  lemma GrownLeaf(t: Tree, g: Layout, m: map<nat, nat>, t': Tree, g': Layout, n: nat,
                  path: seq<Step>, path': seq<Step>, e: Extent, blockCap: nat)
    requires 0 in t && HasKey(t[0]) && t' == Grown(t, n, blockCap) && g' == GrownLayout(g, n) && n != 0 && n !in t
    requires ShapeOk(t', g', m) && AllHang(t', g', 0)
    requires PathOk(t, g, path, e.first, e.first + e.len) && PathOk(t', g', path', e.first, e.first + 1)
    requires RootOk(t, g)
    ensures |path'| == |path| + 1 && path'[1].addr == n
    ensures LeafOf(path') == if |path| == 1 then n else LeafOf(path)
    ensures t'[LeafOf(path')].exts == t[LeafOf(path)].exts
  {
    assert LinkedAt(t', path', 1) && LinkedAt(t', path', 0);
    assert LinkedAt(t, path, 0);
    assert Placed(g', n) && g'.lo[n] == 0 && g'.hi[n] == EXT_MAX_BLOCKS;
    SameNodeAt(t', g', m, path', 1, n, e.first);
    if |path| > 1 {
      assert LinkedAt(t, path, |path| - 1);
      PathDistinct(t, path, 0, |path| - 1);
      SameNodeAt(t', g', m, path', |path'| - 1, LeafOf(path), e.first);
    }
  }

  /** The node of a path at some level is the only one of that depth whose range has the block. */
  lemma SameNodeAt(t: Tree, g: Layout, m: map<nat, nat>, path: seq<Step>, i: nat, b: nat, x: nat)
    requires ShapeOk(t, g, m) && AllHang(t, g, 0)
    requires Linked(t, path) && i < |path| && LinkedAt(t, path, i)
    requires Placed(g, path[i].addr) && g.lo[path[i].addr] <= x < g.hi[path[i].addr]
    requires b in t && Placed(g, b) && g.lo[b] <= x < g.hi[b] && Depth(t[b]) == |path| - 1 - i
    ensures path[i].addr == b
  {
    hide ShapeOk, AllHang, Linked;
    if path[i].addr != b {
      SameDepthApart(t, g, m, path[i].addr, b);
      assert false;
    }
  }

  // ----- the prepend branch -----

  /** The position a path has chosen in an index node is the one the search function chooses. */
  lemma PathSlot(t: Tree, g: Layout, m: map<nat, nat>, path: seq<Step>, x: nat, y: nat, i: nat)
    requires ShapeOk(t, g, m) && PathOk(t, g, path, x, y) && i + 1 < |path| && LinkedAt(t, path, i)
    ensures IndexSlot(t[path[i].addr].ents, x) == path[i].pos
  {
    var a, pos := path[i].addr, path[i].pos;
    var ents := t[a].ents;
    assert NodeOk(t, g, m, a);
    assert ChildOk(t, g, a, t[a].depth, ents, pos);
    RangeOf(g, path, x, y, i + 1);
    assert pos > 0 ==> ents[pos].key <= x;
    forall j | pos < j < |ents| ensures x < ents[j].key {
      assert ents[pos + 1].key <= ents[j].key;
    }
    IndexSlotUnique(ents, x, pos);
  }

  lemma {:induction false} LookupAlong(t: Tree, g: Layout, m: map<nat, nat>, path: seq<Step>, x: nat, y: nat,
                                       exts: seq<Extent>, i: nat)
    requires ShapeOk(t, g, m) && PathOk(t, g, path, x, y) && i < |path|
    ensures Lookup(SetLeaf(t, LeafOf(path), exts), path[i].addr, |path| - 1 - i, x) == LeafLookup(exts, x)
    decreases |path| - i
  {
    assert LinkedAt(t, path, i);
    if i + 1 < |path| {
      PathDistinct(t, path, i, |path| - 1);
      PathSlot(t, g, m, path, x, y, i);
      LookupAlong(t, g, m, path, x, y, exts, i + 1);
    }
  }

  /** The path ends at the extent the search function finds. */
  lemma {:induction false} FoundAlong(t: Tree, g: Layout, m: map<nat, nat>, path: seq<Step>, x: nat, y: nat, i: nat)
    requires ShapeOk(t, g, m) && PathOk(t, g, path, x, y) && i < |path|
    ensures var exts := t[LeafOf(path)].exts;
      Found(t, path[i].addr, |path| - 1 - i, x) ==
        if exts == [] then None else Some(exts[path[|path| - 1].pos])
    decreases |path| - i
  {
    assert LinkedAt(t, path, i);
    if i + 1 < |path| {
      PathSlot(t, g, m, path, x, y, i);
      FoundAlong(t, g, m, path, x, y, i + 1);
    } else {
      assert NodeOk(t, g, m, LeafOf(path));
      if t[LeafOf(path)].exts != [] {
        SlotIs(t[LeafOf(path)].exts, path[i].pos, x);
      }
    }
  }

  /**
   * The prepend branch gives the new logical block the physical start of the old extent, so the
   * new block never ends up where it was allocated.
   */
  lemma PrependMisplaces(t: Tree, g: Layout, m: map<nat, nat>, path: seq<Step>, e: Extent)
    requires ShapeOk(t, g, m) && PathOk(t, g, path, e.first, e.first + e.len)
    requires Fits(g, m, LeafOf(path), e)
    requires LeafWay(t[LeafOf(path)], path[|path| - 1].pos, e) == MergedBefore
    ensures var a, p := LeafOf(path), path[|path| - 1].pos;
      var t' := SetLeaf(t, a, Prepended(t[a].exts, p, e));
      FileBlock(t', e.first) == Some(t[a].exts[p].start) && FileBlock(t', e.first) != Some(e.start)
  {
    var a, p := LeafOf(path), path[|path| - 1].pos;
    var exts := t[a].exts;
    var exts' := Prepended(exts, p, e);
    SlotFacts(t, g, m, path, e);
    assert p == 0;
    forall j | 0 < j < |exts'| ensures e.first < exts'[j].first {
      assert exts[0].first + exts[0].len <= exts[j].first;
    }
    ExtentSlotUnique(exts', e.first, 0);
    LookupAlong(t, g, m, path, e.first, e.first + e.len, exts', 0);
    assert LinkedAt(t, path, 0);
  }

  lemma InsertReady(blockCap: nat, t: Tree, g: Layout, m: map<nat, nat>, path: seq<Step>, e: Extent)
    requires TreeOk(blockCap, t, g, m) && PathOk(t, g, path, e.first, e.first + 1)
    requires 1 <= e.len <= EXT_INIT_MAX_LEN && e.first + e.len <= EXT_MAX_BLOCKS
    requires forall x :: Covers(e, x) ==> x !in m
    ensures PathOk(t, g, path, e.first, e.first + e.len)
    ensures Fits(g, m, LeafOf(path), e)
    ensures HollowOk(t, g, LeafOf(path), 0, EXT_MAX_BLOCKS, e.first)
  {
    hide NodeOk;
    WidenPath(t, g, m, path, e);
    assert LinkedAt(t, path, |path| - 1);
    RangeOf(g, path, e.first, e.first + e.len, |path| - 1);
  }
}
