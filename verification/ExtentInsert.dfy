/**
 * Insertion into the extent tree: search, leaf insertion with merging, multi-level
 * split, growth of the root and repair of index keys.
 */
module ExtentInsert {
  import opened ExtentNodes
  import opened ExtentSteps
  import opened ExtentLeaf
  import opened ExtentPath
  import opened ExtentSplit
  import opened ExtentLoss
  import opened Lists

  datatype Err = EOK | EIO | ENOSPC

  // ----- binary searches -----

  method BinsearchIdx(ents: seq<Index>, x: nat) returns (pos: nat)
    requires ents != [] && SortedKeys(ents)
    ensures pos == IndexSlot(ents, x)
  {
    var l, r := 1, |ents| - 1;
    while l <= r
      invariant 1 <= l <= r + 1 <= |ents|
      invariant l > 1 ==> ents[l - 1].key <= x
      invariant r + 1 < |ents| ==> x < ents[r + 1].key
      decreases r - l
    {
      var mid := l + (r - l) / 2;
      if x < ents[mid].key {
        r := mid - 1;
      } else {
        l := mid + 1;
      }
    }
    pos := l - 1;
    IndexSlotUnique(ents, x, pos);
  }

  method Binsearch(exts: seq<Extent>, x: nat) returns (pos: nat)
    requires Sorted(exts) && forall i :: 0 <= i < |exts| ==> exts[i].len >= 1
    ensures pos == ExtentSlot(exts, x)
  {
    if exts == [] {
      return 0;
    }
    var l, r := 1, |exts| - 1;
    while l <= r
      invariant 1 <= l <= r + 1 <= |exts|
      invariant l > 1 ==> exts[l - 1].first <= x
      invariant r + 1 < |exts| ==> x < exts[r + 1].first
      decreases r - l
    {
      var mid := l + (r - l) / 2;
      if x < exts[mid].first {
        r := mid - 1;
      } else {
        l := mid + 1;
      }
    }
    pos := l - 1;
    ExtentSlotUnique(exts, x, pos);
  }

  class ExtentFile {
    const blockSize: nat
    var nodes: Tree
    /** The blocks the allocator is going to hand out, in order. */
    var pool: seq<nat>
    ghost var layout: Layout
    ghost var blocks: map<nat, nat>

    ghost predicate PoolOk()
      reads this
    {
      && (forall i :: 0 <= i < |pool| ==> pool[i] != 0 && pool[i] !in nodes)
      && Distinct(pool)
    }

    ghost predicate Sane()
      reads this
    {
      blockSize >= 1024 && PoolOk()
    }

    ghost predicate TreeValid()
      reads this
    {
      Sane() && TreeOk(BlockCap(blockSize), nodes, layout, blocks)
    }

    ghost predicate Valid()
      reads this
    {
      TreeValid() && UsedOnce(nodes, blocks, pool)
    }

    constructor (blockSize: nat, pool: seq<nat>)
      requires blockSize >= 1024
      requires forall i :: 0 <= i < |pool| ==> pool[i] != 0
      requires Distinct(pool)
      ensures Valid() && blocks == map[] && this.pool == pool
    {
      this.blockSize := blockSize;
      this.pool := pool;
      nodes := map[0 := Leaf(ROOT_CAP, [])];
      layout := Layout(map[0 := 0], map[0 := EXT_MAX_BLOCKS], map[]);
      blocks := map[];
    }

    /** Walk from the root to the leaf responsible for `x`, remembering each node and position. */
    method FindExtent(x: nat) returns (path: seq<Step>)
      requires ShapeOk(nodes, layout, blocks) && x < EXT_MAX_BLOCKS
      ensures PathOk(nodes, layout, path, x, x + 1)
    {
      hide ShapeOk, InnerOk, WalkOk, PathOk;
      RootRange(nodes, layout, blocks);
      var i := Depth(nodes[0]);
      var a := 0;
      path := [];
      WalkFacts(nodes, layout, blocks, 0);
      WalkStart(nodes, layout, x);
      while i > 0
        invariant i <= Depth(nodes[0]) && |path| + i == Depth(nodes[0])
        invariant a in nodes && Placed(layout, a) && Depth(nodes[a]) == i
        invariant layout.lo[a] <= x < layout.hi[a]
        invariant |path| == 0 ==> a == 0
        invariant |path| > 0 ==> path[0].addr == 0
        invariant WalkOk(nodes, layout, path, a, x)
      {
        WalkFacts(nodes, layout, blocks, a);
        var pos := BinsearchIdx(nodes[a].ents, x);
        WalkStep(nodes, layout, path, a, x);
        path := path + [Step(a, pos)];
        a := nodes[a].ents[pos].addr;
        i := i - 1;
      }
      WalkFacts(nodes, layout, blocks, a);
      LeafFacts(nodes, layout, blocks, a);
      var exts := nodes[a].exts;
      var pos := Binsearch(exts, x);
      if exts != [] {
        ExtentSlotIs(exts, x);
      }
      WalkDone(nodes, layout, path, a, pos, x);
      path := path + [Step(a, pos)];
    }

    /** Give the entries above the leaf the leaf's first block as key, as far up as it is the first entry. */
    method CorrectIndexes(path: seq<Step>, ghost m: map<nat, nat>)
      requires Linked(nodes, path) && LinkedAt(nodes, path, |path| - 1)
      requires nodes[path[|path| - 1].addr].exts != []
      requires RestOk(BlockCap(blockSize), nodes, layout, m, 0, 0, EXT_MAX_BLOCKS)
      requires |path| > 1 && path[|path| - 1].pos == 0 ==>
        && LinkedAt(nodes, path, |path| - 2)
        && KeyPending(nodes, layout, m, path, |path| - 2, nodes[path[|path| - 1].addr].exts[0].first)
      requires |path| == 1 || path[|path| - 1].pos != 0 ==> ShapeOk(nodes, layout, m)
      modifies this`nodes
      ensures TreeOk(BlockCap(blockSize), nodes, layout, m)
      ensures nodes.Keys == old(nodes).Keys
    {
      hide ShapeOk, ShapeOkWith, RestOk;
      var depth := |path| - 1;
      if depth == 0 || path[depth].pos != 0 {
        return;
      }
      var t, border := nodes, nodes[path[depth].addr].exts[0].first;
      var k := depth - 1;
      RepairStep(BlockCap(blockSize), t, layout, m, path, k, border);
      t := SetKey(t, path[k], border);
      while k > 0
        invariant nodes == old(nodes)
        invariant k < depth && t.Keys == nodes.Keys
        invariant Repaired(BlockCap(blockSize), t, layout, m, path, k, border)
      {
        k := k - 1;
        if path[k + 1].pos != 0 {
          break;
        }
        RepairStep(BlockCap(blockSize), t, layout, m, path, k, border);
        t := SetKey(t, path[k], border);
      }
      nodes := t;
    }

    /**
     * Put `e` into the leaf at the end of the path: merge it with the extent found there, or
     * insert it beside that extent.  A full leaf is reported and nothing is changed.
     */
    method InsertLeaf(path: seq<Step>, e: Extent, ghost hollow: nat, ghost kh: nat)
      returns (err: Err, needSplit: bool, way: Way)
      requires Sane() && ShapeOk(nodes, layout, blocks)
      requires RestOk(BlockCap(blockSize), nodes, layout, blocks, 0, hollow, kh)
      requires PathOk(nodes, layout, path, e.first, e.first + e.len)
      requires Fits(layout, blocks, LeafOf(path), e)
      requires HollowOk(nodes, layout, LeafOf(path), hollow, kh, e.first)
      modifies this`nodes, this`blocks
      ensures nodes.Keys == old(nodes).Keys
      ensures way == LeafWay(old(nodes)[LeafOf(path)], path[|path| - 1].pos, e)
      ensures needSplit <==> way == NotDone
      ensures err == (if way == NotDone then EIO else EOK)
      ensures way == NotDone ==> nodes == old(nodes) && blocks == old(blocks)
      ensures way == Separate || way == MergedAfter ==>
        TreeOk(BlockCap(blockSize), nodes, layout, blocks) && blocks == old(blocks) + RangeMap(e)
      ensures way == MergedBefore ==>
        && blocks == old(blocks)
        && nodes == SetLeaf(old(nodes), LeafOf(path), Prepended(old(nodes)[LeafOf(path)].exts, path[|path| - 1].pos, e))
    {
      hide ShapeOk, RestOk, LeafOk;
      var depth := |path| - 1;
      var a, p := path[depth].addr, path[depth].pos;
      var exts := nodes[a].exts;
      needSplit, err, way := false, EOK, NotDone;
      SlotFacts(nodes, layout, blocks, path, e);
      RoomFacts(BlockCap(blockSize), nodes, layout, blocks, a, hollow, kh);
      if exts != [] && e.first == exts[p].first {
        return EIO, false, way;
      }
      if exts != [] && CanAppend(exts[p], e) {
        AppendInLeaf(BlockCap(blockSize), nodes, layout, blocks, path, e, hollow, kh);
        nodes := SetLeaf(nodes, a, Appended(exts, p, e));
        blocks := blocks + RangeMap(e);
        return EOK, false, MergedAfter;
      }
      if exts != [] && CanPrepend(exts[p], e) {
        nodes := SetLeaf(nodes, a, Prepended(exts, p, e));
        return EOK, false, MergedBefore;
      }
      if |exts| == nodes[a].cap {
        return EIO, true, NotDone;
      }
      var at := if exts == [] then 0 else if e.first > exts[p].first then p + 1 else p;
      InsertInLeaf(BlockCap(blockSize), nodes, layout, blocks, path, e, at, hollow, kh);
      nodes := SetLeaf(nodes, a, InsertExt(exts, at, e));
      blocks := blocks + RangeMap(e);
      CorrectIndexes(path, blocks);
      way := Separate;
    }

    /** Take the next block from the allocator. */
    method AllocBlock() returns (r: Option<nat>)
      requires PoolOk()
      modifies this`pool
      ensures PoolOk()
      ensures r == if old(pool) == [] then None else Some(old(pool)[0])
      ensures pool == if old(pool) == [] then [] else old(pool)[1..]
      ensures r.Some? ==> r.value != 0 && r.value !in nodes && r.value !in pool
    {
      if pool == [] {
        return None;
      }
      r := Some(pool[0]);
      pool := pool[1..];
    }

    /** Insert an index entry beside the path's position at level `at`. */
    method InsertIndex(path: seq<Step>, at: nat, key: nat, blk: nat) returns (err: Err)
      requires at + 1 < |path| && LinkedAt(nodes, path, at)
      requires |nodes[path[at].addr].ents| <= nodes[path[at].addr].cap
      modifies this`nodes
      ensures var n, pos := old(nodes)[path[at].addr], path[at].pos;
        && err == (if key == n.ents[pos].key || |n.ents| == n.cap then EIO else EOK)
        && (err != EOK ==> nodes == old(nodes))
        && (err == EOK ==>
              nodes == old(nodes)[path[at].addr := n.(ents :=
                if key > n.ents[pos].key then WithEntry(n.ents, pos, key, blk)
                else n.ents[..pos] + [Index(key, blk)] + n.ents[pos..])])
    {
      var a, pos := path[at].addr, path[at].pos;
      var ents := nodes[a].ents;
      if key == ents[pos].key || |ents| == nodes[a].cap {
        return EIO;
      }
      var ix := if key > ents[pos].key then pos + 1 else pos;
      nodes := nodes[a := nodes[a].(ents := ents[..ix] + [Index(key, blk)] + ents[ix..])];
      err := EOK;
    }

    /** Move the extents behind position `p` of leaf `a` into the new block `r`. */
    method SplitLeafLevel(a: nat, p: nat, ghost k: nat, r: nat)
      requires Sane() && a in nodes && nodes[a].Leaf? && p < |nodes[a].exts|
      requires r != 0 && r !in nodes && r !in pool && a in layout.hi && a in layout.up
      modifies this`nodes, this`layout
      ensures Sane()
      ensures nodes == LeafSplit(old(nodes), a, p, r, BlockCap(blockSize))
      ensures layout == SplitLayout(old(layout), a, r, k, {})
    {
      layout := SplitLayout(layout, a, r, k, {});
      nodes := LeafSplit(nodes, a, p, r, BlockCap(blockSize));
    }

    /** Start the new index block `r` with the entry (k, r0) and move the entries behind `pos` of node `a` after it. */
    method SplitIndexLevel(a: nat, pos: nat, k: nat, r0: nat, r: nat)
      requires Sane() && a in nodes && nodes[a].Inner? && pos < |nodes[a].ents|
      requires r != 0 && r !in nodes && r !in pool && a in layout.hi && a in layout.up
      modifies this`nodes, this`layout
      ensures Sane()
      ensures nodes == InnerSplit(old(nodes), a, pos, k, r0, r, BlockCap(blockSize))
      ensures layout == SplitLayout(old(layout), a, r, k, MovedChildren(old(nodes)[a].ents, pos, r0))
    {
      layout := SplitLayout(layout, a, r, k, MovedChildren(nodes[a].ents, pos, r0));
      nodes := InnerSplit(nodes, a, pos, k, r0, r, BlockCap(blockSize));
    }

    /** Split the path's node at level `i` into itself and the new block `r`. */
    method SplitLevel(path: seq<Step>, i: nat, k: nat, npath: seq<nat>, r: nat, e: Extent,
                      ghost t0: Tree, ghost hollow: nat, ghost kh: nat)
      returns (npath': seq<nat>, ghost hollow': nat, ghost kh': nat)
      requires Sane() && 0 < i < |path| && LinkedAt(t0, path, |path| - 1) && Linked(t0, path)
      requires r != 0 && r !in nodes && r !in pool && path[|path| - 1].pos < |t0[LeafOf(path)].exts|
      requires k == CutAt(t0[LeafOf(path)].exts, path[|path| - 1].pos, e.first)
      requires i + 1 == |path| ==>
        && nodes == t0 && npath == []
        && ShapeOk(nodes, layout, blocks) && RestOk(BlockCap(blockSize), nodes, layout, blocks, 0, 0, EXT_MAX_BLOCKS)
        && PathOk(nodes, layout, path, e.first, e.first + e.len)
        && Fits(layout, blocks, LeafOf(path), e) && |nodes[LeafOf(path)].exts| >= 2
      requires i + 1 < |path| ==>
        && SplitLoop(BlockCap(blockSize), t0, nodes, layout, blocks, path, i, npath, e, hollow, kh)
        && HalfSplit(t0, nodes, path, i + 1, npath)
      modifies this`nodes, this`layout
      ensures Sane() && npath' == [r] + npath
      ensures SplitLoop(BlockCap(blockSize), t0, nodes, layout, blocks, path, i - 1, npath', e, hollow', kh')
      ensures HalfSplit(t0, nodes, path, i, npath') && forall a :: a in nodes <==> a in old(nodes) || a == r
    {
      hide ShapeOk, RestOk, SplitLoop, Linked, InRange, HalfSplit, Pruned;
      hollow', kh', npath' := hollow, kh, [r] + npath;
      var a, p := path[i].addr, path[i].pos;
      if i + 1 == |path| {
        HalfLeaf(nodes, path, r, BlockCap(blockSize));
        SplitLoopStart(BlockCap(blockSize), nodes, layout, blocks, path, e, r);
        SplitLeafLevel(a, p, k, r);
        hollow', kh' := if k == e.first then r else 0, if k == e.first then k else EXT_MAX_BLOCKS;
        assert npath' == [r];
      } else {
        SplitLoopNode(BlockCap(blockSize), t0, nodes, layout, blocks, path, i, npath, e, hollow, kh);
        HalfInner(t0, nodes, path, i, npath, k, npath[0], r, BlockCap(blockSize));
        SplitLoopStep(BlockCap(blockSize), t0, nodes, layout, blocks, path, i, npath, e, hollow, kh, r);
        SplitIndexLevel(a, p, k, npath[0], r);
      }
    }

    /** Free the nodes made so far, without putting back what was moved into them. */
    method GiveUp(npath: seq<nat>, free: seq<nat>, path: seq<Step>, i: nat, ghost t0: Tree, ghost g0: Layout)
      requires i < |path|
      requires if i + 1 == |path| then nodes == t0 && npath == [] else HalfSplit(t0, nodes, path, i + 1, npath)
      modifies this`nodes, this`pool, this`layout
      ensures nodes == Pruned(t0, path, i + 1) && pool == free && layout == g0
    {
      FreedHalf(t0, nodes, path, i, npath);
      nodes := map a | a in nodes && a !in npath :: nodes[a];
      pool, layout := free, g0;
    }

    /**
     * Split the full nodes of the path from the leaf up to level `at`, right behind the path's
     * position, and link the topmost new node at level `at - 1`.
     */
    method SplitNode(path: seq<Step>, at: nat, e: Extent)
      returns (err: Err, path': seq<Step>, ghost hollow: nat, ghost kh: nat)
      requires Sane() && ShapeOk(nodes, layout, blocks)
      requires RestOk(BlockCap(blockSize), nodes, layout, blocks, 0, 0, EXT_MAX_BLOCKS)
      requires PathOk(nodes, layout, path, e.first, e.first + e.len)
      requires 1 <= at < |path| && LinkedAt(nodes, path, at - 1)
      requires Fits(layout, blocks, LeafOf(path), e)
      requires LeafWay(nodes[LeafOf(path)], path[|path| - 1].pos, e) == NotDone
      requires |nodes[LeafOf(path)].exts| >= 2
      requires |nodes[path[at - 1].addr].ents| < nodes[path[at - 1].addr].cap
      modifies this`nodes, this`layout, this`pool
      ensures err == if |old(pool)| < |path| - at then ENOSPC else EOK
      ensures err == ENOSPC ==>
        nodes == Pruned(old(nodes), path, |path| - |old(pool)|) && layout == old(layout) && pool == old(pool)
      ensures err == EOK ==> AfterSplit(BlockCap(blockSize), nodes, layout, blocks, path', e, hollow, kh)
      ensures err == EOK ==> Sane() && Took(old(nodes), nodes, old(pool), pool, |path| - at)
    {
      hide Took, ShapeOk, RestOk, SplitLoop, AfterSplit, Linked, InRange, HalfSplit, Pruned;
      var depth := |path| - 1;
      var a, p := path[depth].addr, path[depth].pos;
      SlotFacts(nodes, layout, blocks, path, e);
      var k := CutAt(nodes[a].exts, p, e.first);
      hollow, kh, path' := 0, EXT_MAX_BLOCKS, path;
      var i, npath: seq<nat> := depth, [];
      var free := pool;
      ghost var t0, g0 := nodes, layout;
      TookNone(nodes, pool);
      while i >= at
        invariant at - 1 <= i <= depth
        invariant |npath| == depth - i && |old(pool)| == |pool| + depth - i
        invariant Sane() && blocks == old(blocks) && Took(old(nodes), nodes, old(pool), pool, depth - i)
        invariant i == depth ==> nodes == old(nodes) && layout == old(layout)
        invariant i < depth ==> HalfSplit(t0, nodes, path, i + 1, npath)
        invariant i < depth ==>
          SplitLoop(BlockCap(blockSize), t0, nodes, layout, blocks, path, i, npath, e, hollow, kh)
      {
        ghost var t, free1 := nodes, pool;
        var r := AllocBlock();
        if r.None? {
          GiveUp(npath, free, path, i, t0, g0);
          return ENOSPC, path, 0, 0;
        }
        npath, hollow, kh := SplitLevel(path, i, k, npath, r.value, e, t0, hollow, kh);
        TookOne(t, nodes, free1, pool);
        TookMore(old(nodes), t, nodes, old(pool), free1, pool, depth - i, 1);
        i := i - 1;
      }
      SplitLoopNode(BlockCap(blockSize), t0, nodes, layout, blocks, path, i, npath, e, hollow, kh);
      SplitLoopEnd(BlockCap(blockSize), t0, nodes, layout, blocks, path, i, npath, e, hollow, kh);
      ghost var t1 := nodes;
      err := InsertIndex(path, at - 1, k, npath[0]);
      TookSame(old(nodes), t1, nodes, old(pool), pool);
      if e.first >= k {
        path' := RightPath(path, i, npath);
      }
    }

    /** Move the root into a new block and make that block the only child of the root. */
    method GrowInDepth() returns (err: Err)
      requires TreeValid() && HasKey(nodes[0])
      modifies this`nodes, this`layout, this`pool
      ensures err == if old(pool) == [] then ENOSPC else EOK
      ensures err == ENOSPC ==> nodes == old(nodes) && layout == old(layout) && pool == old(pool)
      ensures err == EOK ==>
        && TreeValid() && pool == old(pool)[1..] && Took(old(nodes), nodes, old(pool), pool, 1)
        && nodes == Grown(old(nodes), old(pool)[0], BlockCap(blockSize))
        && layout == GrownLayout(old(layout), old(pool)[0])
    {
      hide NodeOk, RestOk;
      var r := AllocBlock();
      if r.None? {
        return ENOSPC;
      }
      GrowKeeps(nodes, layout, blocks, r.value, BlockCap(blockSize));
      layout := GrownLayout(layout, r.value);
      nodes := Grown(nodes, r.value, BlockCap(blockSize));
      TookOne(old(nodes), nodes, old(pool), pool);
      err := EOK;
    }

    /** A split, with what it leaves of the file when it runs out of blocks. */
    method SplitOrPrune(path: seq<Step>, at: nat, e: Extent)
      returns (err: Err, path': seq<Step>, ghost hollow: nat, ghost kh: nat)
      requires TreeValid() && PathOk(nodes, layout, path, e.first, e.first + e.len)
      requires 1 <= at < |path| && LinkedAt(nodes, path, at - 1)
      requires Fits(layout, blocks, LeafOf(path), e)
      requires LeafWay(nodes[LeafOf(path)], path[|path| - 1].pos, e) == NotDone
      requires |nodes[LeafOf(path)].exts| >= 2
      requires |nodes[path[at - 1].addr].ents| < nodes[path[at - 1].addr].cap
      modifies this`nodes, this`layout, this`pool
      ensures err == if |old(pool)| < |path| - at then ENOSPC else EOK
      ensures err == ENOSPC ==>
        && nodes.Keys == old(nodes).Keys && layout == old(layout) && pool == old(pool)
        && Remains(old(nodes), old(layout), path, |path| - |old(pool)|, e.first, nodes)
        && (SameFile(old(nodes), nodes) ==> nodes == old(nodes))
      ensures err == EOK ==> AfterSplit(BlockCap(blockSize), nodes, layout, blocks, path', e, hollow, kh)
      ensures err == EOK ==> Sane() && Took(old(nodes), nodes, old(pool), pool, |path| - at)
    {
      hide Took, Distinct, ShapeOk, RestOk, AfterSplit, InRange, Remains, Pruned, SameFile;
      ghost var t := nodes;
      err, path', hollow, kh := SplitNode(path, at, e);
      if err == ENOSPC {
        ghost var j := |path| - |pool|;
        PrunedRemains(BlockCap(blockSize), t, layout, blocks, path, e, j);
        PrunedSame(t, layout, path, j, e.first);
        PrunedKeys(t, path, j);
      }
    }

    /**
     * Make room for `e` in the leaf the search for it ends at: grow the tree if every node of the path
     * is full, then split.
     */
    method MakeRoom(path0: seq<Step>, e: Extent) returns (err: Err, path: seq<Step>, ghost hollow: nat, ghost kh: nat)
      requires TreeValid() && PathOk(nodes, layout, path0, e.first, e.first + e.len)
      requires Fits(layout, blocks, LeafOf(path0), e)
      requires LeafWay(nodes[LeafOf(path0)], path0[|path0| - 1].pos, e) == NotDone
      modifies this`nodes, this`layout, this`pool
      ensures err == if |old(pool)| < FullLevels(old(nodes), path0) then ENOSPC else EOK
      ensures err == ENOSPC ==>
        && RanOut(old(nodes), old(layout), path0, |old(pool)|, e.first, nodes)
        && (SameFile(old(nodes), nodes) ==> TreeValid())
      ensures Took(old(nodes), nodes, old(pool), pool, Taken(old(nodes), path0, |old(pool)|))
      ensures err == EOK ==> Sane() && AfterSplit(BlockCap(blockSize), nodes, layout, blocks, path, e, hollow, kh)
    {
      hide Took, Distinct, ShapeOk, RestOk, AfterSplit, InRange, NodeOk, ShapeOkWith, Remains, Pruned, SameFile,
        FullLevels, HollowOk, SlotOk, CanAppend, CanPrepend, Covers;
      var depth := |path0| - 1;
      hollow, kh, path := 0, EXT_MAX_BLOCKS, path0;
      var i, level := depth, 0;
      RoomFacts(BlockCap(blockSize), nodes, layout, blocks, LeafOf(path0), 0, EXT_MAX_BLOCKS);
      while i >= 0 && NodeFull(nodes, path[i].addr)
        invariant -1 <= i <= depth && level == depth - i
        invariant i < 0 ==> NodeFull(nodes, path[0].addr)
        invariant nodes == old(nodes) && layout == old(layout) && pool == old(pool)
        invariant forall l :: i < l <= depth ==> NodeFull(nodes, path0[l].addr)
      {
        i, level := i - 1, level + 1;
      }
      FullLevelsIs(nodes, path0, i);
      TookNone(nodes, pool);
      if i < 0 {
        FullHasKey(BlockCap(blockSize), nodes, layout, blocks);
        err := GrowInDepth();
        if err != EOK {
          Untouched(nodes, layout, path0, e.first);
          return;
        }
        path := FindExtent(e.first);
        GrownPath(BlockCap(blockSize), old(nodes), old(layout), blocks, old(pool)[0], path0, path, e);
        level, depth := level - 1, depth + 1;
      }
      i := depth - (level - 1);
      if level > 0 {
        LinkOf(nodes, path, i - 1);
        RoomFacts(BlockCap(blockSize), nodes, layout, blocks, path[i - 1].addr, 0, EXT_MAX_BLOCKS);
        ghost var t1, g1, path1, pool1, free := nodes, layout, path, pool, |pool|;
        err, path, hollow, kh := SplitOrPrune(path, i, e);
        if err == EOK {
          TookMore(old(nodes), t1, nodes, old(pool), pool1, pool, |old(pool)| - free, |path1| - i);
        } else {
          TookSame(old(nodes), t1, nodes, old(pool), pool);
          if FullLevels(old(nodes), path0) == |path0| {
            GrownLoss(BlockCap(blockSize), old(nodes), old(layout), blocks, old(pool)[0], path0, path1, e, free, nodes);
          }
        }
      } else {
        err := EOK;
      }
    }

    /**
     * Insert an extent that is disjoint from everything mapped.  `retries` counts how often the
     * source jumps back to try the leaf again.
     */
    method InsertExtent(path0: seq<Step>, e: Extent) returns (err: Err, way: Way, retries: nat)
      requires TreeValid() && PathOk(nodes, layout, path0, e.first, e.first + 1)
      requires 1 <= e.len <= EXT_INIT_MAX_LEN && e.first + e.len <= EXT_MAX_BLOCKS
      requires forall x :: Covers(e, x) ==> x !in blocks
      modifies this`nodes, this`layout, this`blocks, this`pool
      ensures retries <= 1
      ensures err == EOK || err == ENOSPC
      ensures err == ENOSPC <==>
        && LeafWay(old(nodes)[LeafOf(path0)], path0[|path0| - 1].pos, e) == NotDone
        && |old(pool)| < FullLevels(old(nodes), path0)
      ensures err == ENOSPC ==>
        && RanOut(old(nodes), old(layout), path0, |old(pool)|, e.first, nodes)
        && blocks == old(blocks) && (SameFile(old(nodes), nodes) ==> TreeValid())
      ensures Took(old(nodes), nodes, old(pool), pool, Used(old(nodes), path0, |old(pool)|, e))
      ensures err == EOK ==> way in {Separate, MergedAfter, MergedBefore}
      ensures err == EOK ==>
        var first := LeafWay(old(nodes)[LeafOf(path0)], path0[|path0| - 1].pos, e);
        (way == MergedBefore <==> first == MergedBefore) && (way == MergedAfter <==> first == MergedAfter)
      ensures err == EOK && way != MergedBefore ==> TreeValid() && blocks == old(blocks) + RangeMap(e)
      ensures err == EOK && way == MergedBefore ==> FileBlock(nodes, e.first) != Some(e.start)
    {
      hide Took, Taken, Distinct, ShapeOk, RestOk, InRange, NodeOk, Covers, Remains, Splits, SameFile;
      var path := path0;
      ghost var first := LeafWay(nodes[LeafOf(path)], path[|path| - 1].pos, e);
      ghost var hollow, kh := 0, EXT_MAX_BLOCKS;
      retries := 0;
      TookNone(nodes, pool);
      InsertReady(BlockCap(blockSize), nodes, layout, blocks, path, e);
      while true
        invariant Sane() && blocks == old(blocks) && retries <= 1
        invariant retries == 0 ==>
          && nodes == old(nodes) && layout == old(layout) && pool == old(pool)
          && path == path0 && hollow == 0 && kh == EXT_MAX_BLOCKS
        invariant retries == 1 ==> |old(pool)| >= FullLevels(old(nodes), path0)
        invariant retries == 1 ==>
          && AfterSplit(BlockCap(blockSize), nodes, layout, blocks, path, e, hollow, kh)
          && first == NotDone && Took(old(nodes), nodes, old(pool), pool, Used(old(nodes), path0, |old(pool)|, e))
        decreases 1 - retries
      {
        var needSplit;
        if retries == 0 && first == MergedBefore {
          PrependMisplaces(nodes, layout, blocks, path, e);
        }
        ghost var t := nodes;
        err, needSplit, way := InsertLeaf(path, e, hollow, kh);
        TookSame(old(nodes), t, nodes, old(pool), pool);
        if !(err == EIO && needSplit) {
          return;
        }
        err, path, hollow, kh := MakeRoom(path, e);
        if err != EOK {
          return;
        }
        retries := retries + 1;
      }
    }

    /**
     * Look up logical block `iblock`; if it is not mapped and `create` is set, allocate a block for
     * it and insert it as an extent of length one.  `count` tells how many blocks from there on follow
     * each other in the extent, up to `max`.
     */
    method GetBlocks(iblock: nat, create: bool, max: nat)
      returns (err: Err, result: Option<nat>, count: nat, way: Way, ghost path: seq<Step>)
      requires Valid() && iblock < EXT_MAX_BLOCKS
      modifies this`nodes, this`layout, this`blocks, this`pool
      ensures PathOk(old(nodes), old(layout), path, iblock, iblock + 1)
      ensures iblock in old(blocks) ==>
        && err == EOK && result == Some(old(blocks)[iblock])
        && nodes == old(nodes) && blocks == old(blocks) && pool == old(pool) && Valid()
        && Follows(blocks, iblock, count) && InExtent(nodes, iblock, max, count)
      ensures iblock !in old(blocks) ==> count == if err == EOK && create && max > 0 then 1 else 0
      ensures iblock !in old(blocks) && !create ==>
        err == EOK && result == None && nodes == old(nodes) && blocks == old(blocks) && pool == old(pool) &&
          Valid()
      ensures err == EOK || (err == ENOSPC && iblock !in old(blocks) && create)
      ensures iblock !in old(blocks) && create ==> (err == ENOSPC <==>
        || old(pool) == []
        || (&& |old(pool)| <= FullLevels(old(nodes), path)
            && LeafWay(old(nodes)[LeafOf(path)], path[|path| - 1].pos, Extent(iblock, 1, old(pool)[0])) == NotDone))
      ensures err == ENOSPC && old(pool) != [] ==> pool != [] && pool[0] == old(pool)[0]
      ensures old(pool) != [] && iblock !in old(blocks) && create ==>
        var b := old(pool)[0];
        Took(old(nodes), nodes, old(pool)[1..], if err == EOK then pool else pool[1..],
             Used(old(nodes), path, |old(pool)| - 1, Extent(iblock, 1, b)))
      ensures err == ENOSPC ==>
        && blocks == old(blocks) && (SameFile(old(nodes), nodes) ==> Valid())
        && UsedOnce(nodes, blocks, pool)
        && (old(pool) == [] ==> nodes == old(nodes) && pool == [])
        && (old(pool) != [] ==> RanOut(old(nodes), old(layout), path, |old(pool)| - 1, iblock, nodes))
      ensures iblock !in old(blocks) && create && err == EOK ==>
        && old(pool) != [] && result == Some(old(pool)[0]) && old(pool)[0] !in pool && old(pool)[0] !in nodes
        && (way != MergedBefore ==> Valid() && blocks == old(blocks)[iblock := old(pool)[0]])
        && (OneMore(old(nodes), nodes, iblock, result) <==> way != MergedBefore)
        && (way == MergedBefore <==> TakesPrepend(old(nodes), Extent(iblock, 1, old(pool)[0])))
        && (way == MergedAfter <==> Continues(old(nodes), iblock, old(pool)[0]))
    {
      hide ShapeOk, RestOk, InRange, NodeOk, PathOk, Remains, Splits, SameFile, FullLevels, OneMore, TakesPrepend,
        RanOut, Follows, Continues;
      result, err, count, way := None, EOK, 0, NotDone;
      var found := FindExtent(iblock);
      path := found;
      PathLeaf(nodes, layout, blocks, found, iblock);
      FoundAlong(nodes, layout, blocks, found, iblock, iblock + 1, 0);
      var exts, p := nodes[LeafOf(found)].exts, found[|found| - 1].pos;
      if exts != [] && Covers(exts[p], iblock) {
        result := Some(iblock - exts[p].first + exts[p].start);
        var left := exts[p].len - (iblock - exts[p].first);
        count := if left > max then max else left;
        ExtentBlocks(nodes, layout, blocks, LeafOf(found), p, iblock, count);
        return;
      }
      if !create {
        return;
      }
      err, result, way := CreateBlock(found, iblock);
      if err == EOK {
        count := if 1 > max then max else 1;
      }
    }

    /** Allocate a block for an unmapped logical block and insert it where the search has ended. */
    method CreateBlock(path: seq<Step>, iblock: nat) returns (err: Err, result: Option<nat>, way: Way)
      requires Valid() && PathOk(nodes, layout, path, iblock, iblock + 1) && iblock < EXT_MAX_BLOCKS &&
        iblock !in blocks
      modifies this`nodes, this`layout, this`blocks, this`pool
      ensures err == EOK || err == ENOSPC
      ensures err == ENOSPC <==>
        || old(pool) == []
        || (&& |old(pool)| <= FullLevels(old(nodes), path)
            && LeafWay(old(nodes)[LeafOf(path)], path[|path| - 1].pos, Extent(iblock, 1, old(pool)[0])) == NotDone)
      ensures err == ENOSPC && old(pool) != [] ==> pool != [] && pool[0] == old(pool)[0]
      ensures old(pool) != [] ==>
        var b := old(pool)[0];
        Took(old(nodes), nodes, old(pool)[1..], if err == EOK then pool else pool[1..],
             Used(old(nodes), path, |old(pool)| - 1, Extent(iblock, 1, b)))
      ensures err == ENOSPC ==>
        && blocks == old(blocks) && (SameFile(old(nodes), nodes) ==> Valid())
        && UsedOnce(nodes, blocks, pool)
        && (old(pool) == [] ==> nodes == old(nodes) && pool == [])
        && (old(pool) != [] ==> RanOut(old(nodes), old(layout), path, |old(pool)| - 1, iblock, nodes))
      ensures err == EOK ==>
        && old(pool) != [] && result == Some(old(pool)[0]) && old(pool)[0] !in pool && old(pool)[0] !in nodes
        && (way != MergedBefore ==> Valid() && blocks == old(blocks)[iblock := old(pool)[0]])
        && (OneMore(old(nodes), nodes, iblock, result) <==> way != MergedBefore)
        && (way == MergedBefore <==> TakesPrepend(old(nodes), Extent(iblock, 1, old(pool)[0])))
        && (way == MergedAfter <==> Continues(old(nodes), iblock, old(pool)[0]))
    {
      hide Took, Used, Distinct, ShapeOk, RestOk, InRange, NodeOk, PathOk, Remains, Splits, SameFile, FullLevels;
      PathLeaf(nodes, layout, blocks, path, iblock);
      FoundAlong(nodes, layout, blocks, path, iblock, iblock + 1, 0);
      var newblock := AllocBlock();
      if newblock.None? {
        return ENOSPC, None, NotDone;
      }
      var newex := Extent(iblock, 1, newblock.value);
      ghost var t0, g0, m0 := nodes, layout, blocks;
      var retries;
      result := None;
      err, way, retries := InsertExtent(path, newex);
      UsedOnceMore(t0, nodes, m0, old(pool), pool, Used(t0, path, |old(pool)| - 1, newex), iblock);
      if err != EOK {
        pool := [newblock.value] + pool;
        return;
      }
      result := newblock;
      if way != MergedBefore {
        assert m0 + RangeMap(newex) == m0[iblock := newblock.value];
        Extended(BlockCap(blockSize), t0, g0, m0, nodes, layout, iblock, newblock.value);
      }
    }
  }

  /** No device block is used twice: neither for two logical blocks, nor for data and a node, nor is it free as well. */
  ghost predicate UsedOnce(t: Tree, m: map<nat, nat>, pool: seq<nat>) {
    && (forall x :: x in m ==> m[x] !in pool && m[x] !in t)
    && (forall x, y :: x in m && y in m && m[x] == m[y] ==> x == y)
  }

  /** The first `k` free blocks have become nodes, and nothing else has. */
  ghost predicate Took(t: Tree, t': Tree, free: seq<nat>, free': seq<nat>, k: nat) {
    k <= |free| && free' == free[k..] && forall a :: a in t' <==> a in t || a in free[..k]
  }

  /**
   * Blocks taken for nodes by making room: one for each full level.  If there are not enough, only the
   * one for a new root level stays taken.
   */
  function Taken(t: Tree, path: seq<Step>, free: nat): (k: nat)
    ensures k <= free
  {
    if FullLevels(t, path) <= free then FullLevels(t, path)
    else if FullLevels(t, path) == |path| && free > 0 then 1 else 0
  }

  /** The same for an insertion, which makes room only if the leaf cannot take the extent. */
  function Used(t: Tree, path: seq<Step>, free: nat, e: Extent): (k: nat)
    ensures k <= free
  {
    if path == [] || LeafOf(path) !in t || !t[LeafOf(path)].Leaf? then 0
    else
      var n, p := t[LeafOf(path)], path[|path| - 1].pos;
      if (n.exts != [] ==> p < |n.exts|) && LeafWay(n, p, e) == NotDone then Taken(t, path, free) else 0
  }

  lemma TookNone(t: Tree, free: seq<nat>)
    ensures Took(t, t, free, free, 0)
  {
    assert free[0..] == free && free[..0] == [];
  }

  lemma TookSame(t: Tree, t': Tree, t'': Tree, free: seq<nat>, free': seq<nat>)
    requires t'.Keys == t''.Keys
    ensures forall k :: Took(t, t', free, free', k) ==> Took(t, t'', free, free', k)
  {
    assert forall a :: a in t'' <==> a in t';
  }

  lemma TookOne(t: Tree, t': Tree, free: seq<nat>, free': seq<nat>)
    requires free != [] && free' == free[1..] && forall a :: a in t' <==> a in t || a == free[0]
    ensures Took(t, t', free, free', 1)
  {
    assert free[..1] == [free[0]];
  }

  lemma TookMore(t: Tree, t': Tree, t'': Tree, free: seq<nat>, free': seq<nat>, free'': seq<nat>, k: nat, n: nat)
    requires Took(t, t', free, free', k) && Took(t', t'', free', free'', n)
    ensures Took(t, t'', free, free'', k + n)
  {
    assert free[..k + n] == free[..k] + free[k..][..n];
  }

  /** The new block is nobody else's, and can also be given back. */
  lemma UsedOnceMore(t: Tree, t': Tree, m: map<nat, nat>, pool: seq<nat>, pool': seq<nat>, k: nat, x: nat)
    requires UsedOnce(t, m, pool) && pool != [] && Distinct(pool) && x !in m
    requires forall i :: 0 <= i < |pool| ==> pool[i] != 0 && pool[i] !in t
    requires Took(t, t', pool[1..], pool', k)
    ensures pool[0] !in pool' && pool[0] !in t'
    ensures UsedOnce(t', m[x := pool[0]], pool') && UsedOnce(t', m, [pool[0]] + pool')
    ensures var back := [pool[0]] + pool';
      Distinct(back) && back[1..] == pool' && forall i :: 0 <= i < |back| ==> back[i] != 0 && back[i] !in t'
  {
    forall a | a in pool' || a in pool[1..][..k] ensures a in pool && a != pool[0] {
    }
    forall i | 0 <= i < |pool'| ensures pool'[i] == pool[1 + k + i] && pool'[i] !in pool[1..][..k] {
    }
  }

  /** Every reader finds one block more, and no other change. */
  ghost predicate OneMore(t: Tree, t': Tree, iblock: nat, b: Option<nat>) {
    forall x :: 0 <= x < EXT_MAX_BLOCKS ==> FileBlock(t', x) == if x == iblock then b else FileBlock(t, x)
  }

  /** The extent that the search for a new one ends at can take it in front of itself. */
  predicate TakesPrepend(t: Tree, e: Extent) {
    && FoundExtent(t, e.first).Some?
    && var f := FoundExtent(t, e.first).value;
    e.first + e.len == f.first && e.start + e.len == f.start && f.len + e.len <= 32768
  }

  /** The extent that the search ends at can be made one block longer: `b` follows it on the device. */
  predicate Continues(t: Tree, x: nat, b: nat) {
    && FoundExtent(t, x).Some?
    && var e := FoundExtent(t, x).value;
    e.first + e.len == x && e.start + e.len == b && e.len < 32768
  }

  /** `count` blocks from `x` on follow each other on the device. */
  ghost predicate Follows(m: map<nat, nat>, x: nat, count: nat) {
    x in m && forall y :: x <= y < x + count ==> y in m && m[y] == m[x] + (y - x)
  }

  /** `count` is what is left of the extent of block `x`, up to `max`. */
  predicate InExtent(t: Tree, x: nat, max: nat, count: nat) {
    && FoundExtent(t, x).Some?
    && var e := FoundExtent(t, x).value;
    Covers(e, x) && count == if e.first + e.len - x > max then max else e.first + e.len - x
  }

  /** What the search tells about a block: it is mapped exactly if the extent found covers it. */
  lemma PathLeaf(t: Tree, g: Layout, m: map<nat, nat>, path: seq<Step>, x: nat)
    requires ShapeOk(t, g, m) && PathOk(t, g, path, x, x + 1)
    ensures path != [] && LeafOf(path) in t && t[LeafOf(path)].Leaf? && |path| == Depth(t[0]) + 1
    ensures path[0].addr == 0
    ensures var exts, p := t[LeafOf(path)].exts, path[|path| - 1].pos;
      && (exts != [] ==> p < |exts|)
      && (exts != [] && Covers(exts[p], x) ==> x in m && m[x] == x - exts[p].first + exts[p].start)
      && (exts == [] || !Covers(exts[p], x) ==> x !in m)
  {
    assert LinkedAt(t, path, |path| - 1);
    assert NodeOk(t, g, m, LeafOf(path));
    var a, p := LeafOf(path), path[|path| - 1].pos;
    var exts := t[a].exts;
    LeafLookupIsMap(g, m, a, exts, x);
    if exts != [] {
      SlotIs(exts, p, x);
    }
  }

  /** The blocks of one extent follow each other. */
  lemma ExtentBlocks(t: Tree, g: Layout, m: map<nat, nat>, a: nat, p: nat, x: nat, count: nat)
    requires ShapeOk(t, g, m) && a in t && t[a].Leaf? && p < |t[a].exts| && Covers(t[a].exts[p], x)
    requires x + count <= t[a].exts[p].first + t[a].exts[p].len
    ensures Follows(m, x, count)
  {
    var e := t[a].exts[p];
    assert NodeOk(t, g, m, a);
    assert ExtentOk(g, m, a, e);
    assert Covers(e, x);
    forall y | x <= y < x + count ensures y in m && m[y] == m[x] + (y - x) {
      assert Covers(e, y);
    }
  }

  /** One more mapping in the abstract map is one more mapping for every reader. */
  lemma Extended(blockCap: nat, t: Tree, g: Layout, m: map<nat, nat>, t': Tree, g': Layout, x: nat, b: nat)
    requires TreeOk(blockCap, t, g, m) && TreeOk(blockCap, t', g', m[x := b])
    ensures forall y :: 0 <= y < EXT_MAX_BLOCKS ==>
      FileBlock(t', y) == if y == x then Some(b) else FileBlock(t, y)
  {
    forall y | 0 <= y < EXT_MAX_BLOCKS
      ensures FileBlock(t', y) == if y == x then Some(b) else FileBlock(t, y)
    {
      hide ShapeOk, RestOk;
      FileBlockIsMap(t, g, m, y);
      FileBlockIsMap(t', g', m[x := b], y);
    }
  }

  /** A walk that has reached node `a`. */
  ghost predicate WalkOk(t: Tree, g: Layout, path: seq<Step>, a: nat, x: nat) {
    forall i :: 0 <= i < |path| ==> WalkAt(t, g, path, a, x, i)
  }

  ghost predicate WalkAt(t: Tree, g: Layout, path: seq<Step>, a: nat, x: nat, i: nat)
    requires i < |path|
  {
    var b := path[i].addr;
    && 0 in t && b in t && t[b].Inner? && path[i].pos < |t[b].ents|
    && Depth(t[b]) == Depth(t[0]) - i
    && t[b].ents[path[i].pos].addr == (if i + 1 < |path| then path[i + 1].addr else a)
    && Placed(g, b) && g.lo[b] <= x < g.hi[b]
  }

  lemma WalkFacts(t: Tree, g: Layout, m: map<nat, nat>, a: nat)
    requires ShapeOk(t, g, m) && a in t
    ensures Placed(g, a) && (t[a].Leaf? <==> Depth(t[a]) == 0)
    ensures t[a].Inner? ==> InnerOk(t, g, a, t[a].depth, t[a].ents) && t[a].ents != [] && SortedKeys(t[a].ents)
  {
    assert NodeOk(t, g, m, a);
  }

  lemma WalkStart(t: Tree, g: Layout, x: nat)
    ensures WalkOk(t, g, [], 0, x)
  {
  }

  lemma WalkStep(t: Tree, g: Layout, path: seq<Step>, a: nat, x: nat)
    requires 0 in t && a in t && t[a].Inner? && Placed(g, a) && InnerOk(t, g, a, t[a].depth, t[a].ents)
    requires Depth(t[a]) == Depth(t[0]) - |path|
    requires g.lo[a] <= x < g.hi[a] && WalkOk(t, g, path, a, x)
    ensures var pos := IndexSlot(t[a].ents, x);
      var c := t[a].ents[pos].addr;
      && c in t && Placed(g, c) && g.lo[c] <= x < g.hi[c] && Depth(t[c]) + 1 == Depth(t[a])
      && WalkOk(t, g, path + [Step(a, pos)], c, x)
  {
    IndexSlotIs(t[a].ents, x);
    var pos := IndexSlot(t[a].ents, x);
    assert ChildOk(t, g, a, t[a].depth, t[a].ents, pos);
    var path' := path + [Step(a, pos)];
    forall i | 0 <= i < |path'| ensures WalkAt(t, g, path', t[a].ents[pos].addr, x, i) {
      if i < |path| {
        assert WalkAt(t, g, path, a, x, i);
      }
    }
  }

  lemma WalkDone(t: Tree, g: Layout, path: seq<Step>, a: nat, pos: nat, x: nat)
    requires 0 in t && a in t && t[a].Leaf? && Placed(g, a) && g.lo[a] <= x < g.hi[a]
    requires |path| == Depth(t[0]) && WalkOk(t, g, path, a, x)
    requires if path == [] then a == 0 else path[0].addr == 0
    requires SlotOk(t[a].exts, pos, x)
    ensures PathOk(t, g, path + [Step(a, pos)], x, x + 1)
  {
    var full := path + [Step(a, pos)];
    forall i | 0 <= i < |full|
      ensures LinkedAt(t, full, i)
      ensures Placed(g, full[i].addr) && g.lo[full[i].addr] <= x < x + 1 <= g.hi[full[i].addr]
    {
      if i < |path| {
        assert WalkAt(t, g, path, a, x, i);
      }
    }
  }
}
