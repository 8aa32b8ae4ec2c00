/**
 * Truncation of an extent-mapped file: remove everything from a mapped block to the end,
 * walking over the tree without recursion.
 */
module ExtentTruncate {
  import opened ExtentNodes
  import opened ExtentSteps
  import opened ExtentPath
  import opened ExtentSplit
  import opened ExtentCut
  import opened ExtentSweep
  import opened ExtentInsert
  import opened Lists

  /** The physical blocks of the logical blocks in [a, b), in logical order. */
  ghost function Trace(m: map<nat, nat>, a: nat, b: nat): seq<nat>
    decreases b
  {
    if b <= a then []
    else Trace(m, a, b - 1) + if b - 1 in m then [m[b - 1]] else []
  }

  lemma {:induction false} TraceSplit(m: map<nat, nat>, a: nat, b: nat, c: nat)
    requires a <= b <= c
    ensures Trace(m, a, c) == Trace(m, a, b) + Trace(m, b, c)
    decreases c
  {
    if b < c {
      TraceSplit(m, a, b, c - 1);
    }
  }

  lemma {:induction false} TraceEmpty(m: map<nat, nat>, a: nat, b: nat)
    requires forall x :: a <= x < b ==> x !in m
    ensures Trace(m, a, b) == []
    decreases b
  {
    if a < b {
      TraceEmpty(m, a, b - 1);
    }
  }

  function BlockRun(start: nat, len: nat): seq<nat> {
    seq(len, i => start + i)
  }

  lemma {:induction false} TraceRun(m: map<nat, nat>, a: nat, start: nat, len: nat)
    requires forall x :: a <= x < a + len ==> x in m && m[x] == start + (x - a)
    ensures Trace(m, a, a + len) == BlockRun(start, len)
    decreases len
  {
    if len > 0 {
      TraceRun(m, a, start, len - 1);
      assert m[a + len - 1] == start + (len - 1);
    }
  }

  // ----- one leaf -----

  function Max(a: nat, b: nat): nat {
    if a < b then b else a
  }

  function End(e: Extent): nat {
    e.first + e.len
  }

  /** Where removal starts in a leaf: inside extent `p`, or at the very beginning. */
  ghost predicate LeafStart(g: Layout, a: nat, exts: seq<Extent>, p: nat, from: nat)
    requires Placed(g, a)
  {
    || (p < |exts| && Covers(exts[p], from) && g.lo[a] <= from)
    || (p == 0 && from <= g.lo[a])
  }

  /** Between two neighbouring extents nothing is mapped. */
  lemma Gap(g: Layout, m: map<nat, nat>, a: nat, exts: seq<Extent>, i: nat, x: nat)
    requires Placed(g, a) && LeafOk(g, m, a, exts) && i <= |exts|
    requires g.lo[a] <= x < g.hi[a]
    requires i > 0 ==> End(exts[i - 1]) <= x
    requires i < |exts| ==> x < exts[i].first
    ensures x !in m
  {
    forall j | 0 <= j < |exts| ensures !Covers(exts[j], x) {
      if j < i {
        assert j + 1 < i ==> End(exts[j]) <= exts[i - 1].first;
      } else {
        assert i < j ==> End(exts[i]) <= exts[j].first;
      }
    }
    assert !CoveredBy(exts, x);
  }

  lemma GapTrace(g: Layout, m: map<nat, nat>, a: nat, exts: seq<Extent>, i: nat, done: nat, s: nat)
    requires Placed(g, a) && LeafOk(g, m, a, exts) && i <= |exts|
    requires g.lo[a] <= done && s <= g.hi[a]
    requires i > 0 ==> End(exts[i - 1]) <= done
    requires i < |exts| ==> s <= exts[i].first || s == done
    ensures Trace(m, done, s) == []
  {
    forall x | done <= x < s ensures x !in m {
      Gap(g, m, a, exts, i, x);
    }
    TraceEmpty(m, done, s);
  }

  lemma RunTrace(g: Layout, m: map<nat, nat>, a: nat, e: Extent, s: nat)
    requires Placed(g, a) && ExtentOk(g, m, a, e) && e.first <= s < End(e)
    ensures Trace(m, s, End(e)) == BlockRun(e.start + (s - e.first), End(e) - s)
  {
    forall x | s <= x < s + (End(e) - s) ensures x in m && m[x] == e.start + (s - e.first) + (x - s) {
      assert Covers(e, x);
    }
    TraceRun(m, s, e.start + (s - e.first), End(e) - s);
  }

  lemma JoinTraces(m: map<nat, nat>, a: nat, b: nat, c: nat, d: nat)
    requires a <= b <= c <= d && Trace(m, b, c) == []
    ensures Trace(m, a, d) == Trace(m, a, b) + Trace(m, c, d)
  {
    TraceSplit(m, a, b, d);
    TraceSplit(m, b, c, d);
  }

  lemma LeafExtent(g: Layout, m: map<nat, nat>, a: nat, exts: seq<Extent>, i: nat)
    requires Placed(g, a) && LeafOk(g, m, a, exts) && i < |exts|
    ensures ExtentOk(g, m, a, exts[i]) && End(exts[i]) <= g.hi[a]
  {
  }

  /** Freeing extent `i` from block `s` on extends what has been freed up to the extent's end. */
  lemma FreeStep(g: Layout, m: map<nat, nat>, a: nat, exts: seq<Extent>, i: nat, f0: nat, done: nat, s: nat)
    requires Placed(g, a) && LeafOk(g, m, a, exts) && i < |exts|
    requires g.lo[a] <= f0 <= done <= s && exts[i].first <= s < End(exts[i])
    requires i > 0 ==> End(exts[i - 1]) <= done
    requires s == exts[i].first || s == done
    ensures Trace(m, f0, End(exts[i])) ==
      Trace(m, f0, done) + BlockRun(exts[i].start + (s - exts[i].first), End(exts[i]) - s)
  {
    hide LeafOk, ExtentOk, Trace, BlockRun;
    LeafExtent(g, m, a, exts, i);
    GapTrace(g, m, a, exts, i, done, s);
    RunTrace(g, m, a, exts[i], s);
    JoinTraces(m, f0, done, s, End(exts[i]));
  }

  /** Remove the extents of a leaf from position `p` on, as far as they lie at or above `from`. */
  method RemoveLeaf(exts: seq<Extent>, p: nat, from: nat, ghost g: Layout, ghost m: map<nat, nat>, ghost a: nat)
    returns (rest: seq<Extent>, freed: seq<nat>)
    requires Placed(g, a) && LeafOk(g, m, a, exts) && LeafStart(g, a, exts, p, from)
    ensures rest == CutLeaf(exts, from)
    ensures freed == Trace(m, Max(from, g.lo[a]), g.hi[a])
  {
    hide LeafOk, Trace, CutLeaf, BlockRun;
    CutFrom(g, m, a, exts, p, from);
    TraceNone(m, Max(from, g.lo[a]));
    var ex, count := p, |exts|;
    ghost var f0 := Max(from, g.lo[a]);
    ghost var trimmed := p < |exts| && exts[p].first < from;
    rest, freed := exts, [];
    while ex < |exts|
      invariant p <= ex <= |exts|
      invariant freed == Trace(m, f0, if ex == p then f0 else End(exts[ex - 1]))
      invariant f0 <= (if ex == p then f0 else End(exts[ex - 1]))
      invariant ex == p ==> rest == exts && count == |exts|
      invariant ex > p ==> rest == if trimmed then exts[p := Trim(exts[p], from)] else exts
      invariant ex > p ==> count == |exts| - (ex - p) + if trimmed then 1 else 0
    {
      var e := exts[ex];
      var start, len, newLen := e.first, e.len, 0;
      SideOfStart(g, m, a, exts, p, from, ex);
      if start < from {
        len := len - (from - start);
        newLen := from - start;
        start := from;
      }
      FreeStep(g, m, a, exts, ex, f0, if ex == p then f0 else End(exts[ex - 1]), start);
      freed := freed + BlockRun(e.start + (start - e.first), len);
      if newLen == 0 {
        count := count - 1;
      } else {
        rest := rest[ex := Extent(e.first, newLen, e.start)];
      }
      ex := ex + 1;
    }
    rest := rest[..count];
    LeafTail(g, m, a, exts, p, from);
  }

  lemma TraceNone(m: map<nat, nat>, a: nat)
    ensures Trace(m, a, a) == []
  {
  }

  /** Extent `i` from the start position on: only the first one can begin before `from`. */
  lemma SideOfStart(g: Layout, m: map<nat, nat>, a: nat, exts: seq<Extent>, p: nat, from: nat, i: nat)
    requires Placed(g, a) && LeafOk(g, m, a, exts) && LeafStart(g, a, exts, p, from) && p <= i < |exts|
    ensures exts[i].len >= 1 && g.lo[a] <= exts[i].first
    ensures exts[i].first < from ==> i == p && from < End(exts[i]) && g.lo[a] <= from
    ensures i > p ==> exts[i - 1].len >= 1 && Max(from, g.lo[a]) <= End(exts[i - 1]) <= exts[i].first
    ensures i == p ==> from <= exts[i].first || Max(from, g.lo[a]) == from
    ensures i == p && i > 0 ==> End(exts[i - 1]) <= Max(from, g.lo[a])
  {
    assert ExtentOk(g, m, a, exts[i]);
    if i > p {
      assert ExtentOk(g, m, a, exts[i - 1]) && ExtentOk(g, m, a, exts[p]);
      assert p < i - 1 ==> End(exts[p]) <= exts[i - 1].first;
    }
    assert i == p && i > 0 ==> End(exts[i - 1]) <= exts[i].first;
  }

  /** Behind the last extent nothing is mapped. */
  lemma LeafTail(g: Layout, m: map<nat, nat>, a: nat, exts: seq<Extent>, p: nat, from: nat)
    requires Placed(g, a) && LeafOk(g, m, a, exts) && LeafStart(g, a, exts, p, from)
    ensures var f0 := Max(from, g.lo[a]);
      Trace(m, f0, if p >= |exts| then f0 else End(exts[|exts| - 1])) == Trace(m, f0, g.hi[a])
  {
    var f0 := Max(from, g.lo[a]);
    var e := if p >= |exts| then f0 else End(exts[|exts| - 1]);
    if exts != [] {
      assert ExtentOk(g, m, a, exts[|exts| - 1]);
      SideOfStart(g, m, a, exts, p, from, |exts| - 1);
    }
    forall x | e <= x < g.hi[a] ensures x !in m {
      Gap(g, m, a, exts, |exts|, x);
    }
    TraceEmpty(m, e, g.hi[a]);
    if f0 <= e <= g.hi[a] {
      TraceSplit(m, f0, e, g.hi[a]);
    }
  }

  lemma CutFrom(g: Layout, m: map<nat, nat>, a: nat, exts: seq<Extent>, p: nat, from: nat)
    requires Placed(g, a) && LeafOk(g, m, a, exts) && LeafStart(g, a, exts, p, from)
    ensures p <= |exts|
    ensures CutLeaf(exts, from) ==
      exts[..p] + if p < |exts| && exts[p].first < from then [Trim(exts[p], from)] else []
  {
    forall i | p < i < |exts| ensures from <= exts[i].first {
      SideOfStart(g, m, a, exts, p, from, i);
    }
    if p > 0 {
      SideOfStart(g, m, a, exts, p, from, p);
      assert ExtentOk(g, m, a, exts[p - 1]);
    }
    CutLeafIs(exts, p, from);
  }

  // ----- the walk -----

  lemma PopRoom(o: Origin, t: Tree, path: seq<Step>, ws: seq<nat>, i: nat)
    requires Finished(o, t, path, ws, i) && 0 < i
    ensures i <= |ws| && i < |path| && path[i].addr in o.t && path[i].addr in o.g.hi
  {
    assert Level(o, path, ws, i, i - 1) && Level(o, path, ws, i, i);
  }

  /**
   * Remove the entry at the path's position on level `i`, free the block it points to, and pass
   * the new first key upwards while the entry was the first of its node.
   */
  method RemoveIdx(f: ExtentFile, path: seq<Step>, i: nat, ghost o: Origin, ghost ws: seq<nat>)
    returns (leaf: nat)
    requires OriginOk(o) && Finished(o, f.nodes, path, ws, i + 1)
    requires i + 1 <= |ws| && i + 1 < |path| && path[i + 1].addr in o.t && !ChildKept(o, path, i + 1)
    requires path[i + 1].addr in o.g.hi
    modifies f`nodes
    ensures leaf == path[i + 1].addr
    ensures Sweep(o, f.nodes, path, UpWs(ws, i + 1), i, o.g.hi[leaf])
    ensures f.nodes.Keys == old(f.nodes).Keys - {leaf}
    ensures path[i].addr in old(f.nodes) && old(f.nodes)[path[i].addr].Inner? &&
      path[i].pos < |old(f.nodes)[path[i].addr].ents|
    ensures var ents, pos := old(f.nodes)[path[i].addr].ents, path[i].pos;
      f.nodes == Raised(Unlinked(old(f.nodes), path[i].addr, pos), path, i,
                        if pos + 1 < |ents| then ents[pos + 1].key else ents[pos].key)
  {
    hide OriginOk, Finished, Sweep;
    PopRemoved(o, f.nodes, path, ws, i + 1);
    var a, pos := path[i].addr, path[i].pos;
    var ents := f.nodes[a].ents;
    leaf := ents[pos].addr;
    ghost var cut, ws' := o.g.hi[leaf], UpWs(ws, i + 1);
    f.nodes := Unlinked(f.nodes, a, pos);
    ghost var t, keys := f.nodes, f.nodes.Keys;
    var key := if pos + 1 < |ents| then ents[pos + 1].key else ents[pos].key;
    var k := i;
    while k > 0
      invariant k <= i && f.nodes.Keys == keys
      invariant Raised(f.nodes, path, k, key) == Raised(t, path, i, key)
      invariant Sweep(o, f.nodes, path, ws', i, cut)
      invariant k < i ==> path[k + 1].addr in o.t && !Keep(o.t, path[k + 1].addr, o.from)
    {
      if path[k].pos != 0 {
        break;
      }
      SweepLevel(o, f.nodes, path, ws', i, cut, k);
      Doomed(o, path, ws', i, k);
      RaiseKey(o, f.nodes, path, ws', i, cut, k, key);
      f.nodes := SetKey(f.nodes, path[k - 1], key);
      k := k - 1;
    }
  }

  /** The key of the entry above level `k` becomes `key`, and so on upwards while the path is at a first entry. */
  function Raised(t: Tree, path: seq<Step>, k: nat, key: nat): Tree
    requires k < |path|
  {
    if k == 0 || path[k].pos != 0 then t
    else
      var a, pos := path[k - 1].addr, path[k - 1].pos;
      if a in t && t[a].Inner? && pos < |t[a].ents| then Raised(SetKey(t, path[k - 1], key), path, k - 1, key) else t
  }

  lemma SweepLevel(o: Origin, t: Tree, path: seq<Step>, ws: seq<nat>, i: nat, cut: nat, k: nat)
    requires Sweep(o, t, path, ws, i, cut) && k <= i
    ensures Chain(o, path, ws, i) && Level(o, path, ws, i, k)
  {
  }

  /** How far the walk is from its next visit to a leaf, for a fixed boundary. */
  ghost function Rank(o: Origin, path: seq<Step>, ws: seq<nat>, i: int): nat
    requires 0 in o.t && i < |path|
  {
    var d := Depth(o.t[0]);
    if i < 0 || i > d then 0
    else if i < d && path[i].addr in o.t && o.t[path[i].addr].Inner? && i < |ws|
            && ws[i] >= |o.t[path[i].addr].ents|
    then d + 1 + i
    else d - i
  }

  /** The freed tree blocks are exactly the ones that have left the tree, each once. */
  ghost predicate FreedNodes(o: Origin, t: Tree, freed: seq<nat>) {
    && Distinct(freed)
    && (forall a :: a in freed <==> a in o.t && a !in t)
  }

  lemma FreeNode(o: Origin, t: Tree, t': Tree, freed: seq<nat>, a: nat)
    requires FreedNodes(o, t, freed) && a in o.t && a in t && t'.Keys == t.Keys - {a}
    ensures FreedNodes(o, t', freed + [a])
  {
    forall b | b in freed + [a] ensures b in o.t && b !in t' {
    }
    forall b | b in o.t && b !in t' ensures b in freed + [a] {
      assert b == a || b in freed;
      assert (freed + [a])[|freed|] == a;
    }
  }

  /** An emptied node is one that was not to be kept. */
  lemma EmptyMeansDropped(o: Origin, t: Tree, path: seq<Step>, ws: seq<nat>, i: nat)
    requires OriginOk(o) && Finished(o, t, path, ws, i) && 0 < i && path[i].addr in o.t
    ensures path[i].addr in t
    ensures HasKey(t[path[i].addr]) <==> Keep(o.t, path[i].addr, o.from)
  {
    var a := path[i].addr;
    ChainDistinct(o, path, ws, i, 0, i);
    assert NodeOk(o.t, o.g, o.m, a) && HasKey(o.t[a]);
    match o.t[a] {
      case Leaf(_, exts) => CutLeafAll(o.g, o.m, a, exts, o.from, 0);
      case Inner(_, _, ents) => KeepCountIs(ents, o.from, 0);
    }
  }

  /** What the walk keeps true: `i` is the current level, -1 when it is over. */
  ghost predicate Walk(o: Origin, t: Tree, path: seq<Step>, ws: seq<nat>, i: int, cut: nat,
                       nodes: seq<nat>, data: seq<nat>)
  {
    && 0 in o.t && |path| == Depth(o.t[0]) + 1 && -1 <= i < |path|
    && (i >= 0 ==> Sweep(o, t, path, ws, i, cut))
    && (i == -1 ==> cut == EXT_MAX_BLOCKS && CutTree(o.t, o.from, t))
    && (i == Depth(o.t[0]) ==> AtLeaf(o, path))
    && cut <= EXT_MAX_BLOCKS
    && FreedNodes(o, t, nodes)
    && data == Trace(o.m, o.from, cut)
  }

  ghost predicate AtLeaf(o: Origin, path: seq<Step>)
    requires path != []
  {
    var a, p := LeafOf(path), path[|path| - 1].pos;
    && a in o.t && o.t[a].Leaf? && Placed(o.g, a) && o.from < o.g.hi[a]
    && LeafOk(o.g, o.m, a, o.t[a].exts) && LeafStart(o.g, a, o.t[a].exts, p, o.from)
  }

  /** Leave the finished level `i`: drop its node or step over it. */
  method GoUp(f: ExtentFile, path: seq<Step>, i: nat, empty: bool, ghost o: Origin, ghost ws: seq<nat>,
              nodes: seq<nat>, ghost data: seq<nat>)
    returns (path': seq<Step>, nodes': seq<nat>, ghost ws': seq<nat>)
    requires OriginOk(o) && Finished(o, f.nodes, path, ws, i)
    requires i < |path| && path[i].addr in o.t && path[i].addr in f.nodes && path[i].addr in o.g.hi
    requires empty == !HasKey(f.nodes[path[i].addr])
    requires FreedNodes(o, f.nodes, nodes) && data == Trace(o.m, o.from, o.g.hi[path[i].addr])
    modifies f`nodes
    ensures Walk(o, f.nodes, path', ws', i - 1, o.g.hi[path[i].addr], nodes', data)
    ensures f.nodes.Keys <= old(f.nodes).Keys
  {
    hide OriginOk, Finished, Sweep, CutTree, FreedNodes, Trace;
    path', nodes', ws' := path, nodes, ws;
    if i == 0 {
      SweepEnd(o, f.nodes, path, ws);
      FinishedRoot(o, f.nodes, path, ws);
    } else {
      PopRoom(o, f.nodes, path, ws, i);
      EmptyMeansDropped(o, f.nodes, path, ws, i);
      FinishedPath(o, f.nodes, path, ws, i);
      ghost var t0 := f.nodes;
      ws' := UpWs(ws, i);
      if empty {
        var leaf := RemoveIdx(f, path, i - 1, o, ws);
        nodes' := nodes + [leaf];
        FreeNode(o, t0, f.nodes, nodes, leaf);
      } else {
        PopKept(o, f.nodes, path, ws, i);
        path' := path[i - 1 := Step(path[i - 1].addr, path[i - 1].pos + 1)];
      }
    }
  }

  lemma FinishedRoot(o: Origin, t: Tree, path: seq<Step>, ws: seq<nat>)
    requires OriginOk(o) && Finished(o, t, path, ws, 0)
    ensures 0 in o.t && |path| == Depth(o.t[0]) + 1 && path[0].addr == 0 && o.g.hi[0] == EXT_MAX_BLOCKS
  {
  }

  lemma FinishedPath(o: Origin, t: Tree, path: seq<Step>, ws: seq<nat>, i: nat)
    requires OriginOk(o) && Finished(o, t, path, ws, i)
    ensures 0 in o.t && |path| == Depth(o.t[0]) + 1 && i <= Depth(o.t[0])
    ensures path[i].addr in o.g.hi && o.g.hi[path[i].addr] <= EXT_MAX_BLOCKS
  {
    assert Level(o, path, ws, i, i);
  }

  /** The walk at an index node: there is a next child exactly if the position is still inside the node. */
  lemma AtIndex(o: Origin, t: Tree, path: seq<Step>, ws: seq<nat>, i: nat, cut: nat)
    requires Sweep(o, t, path, ws, i, cut) && i < Depth(o.t[0])
    ensures Level(o, path, ws, i, i) && path[i].addr in t && t[path[i].addr].Inner?
    ensures path[i].pos < |t[path[i].addr].ents| <==> ws[i] < |o.t[path[i].addr].ents|
    ensures o.from <= cut
  {
    assert Level(o, path, ws, i, i) && Content(o, t, path, ws, i, i);
  }

  /** Arriving at the next leaf, removal starts with its first extent. */
  lemma ArriveAtLeaf(o: Origin, t: Tree, path: seq<Step>, ws: seq<nat>, i: nat, cut: nat)
    requires OriginOk(o) && Sweep(o, t, path, ws, i, cut) && o.from <= cut
    requires i == Depth(o.t[0]) && path[i].pos == 0
    ensures AtLeaf(o, path)
  {
    assert Level(o, path, ws, i, i);
    assert NodeOk(o.t, o.g, o.m, path[i].addr);
  }

  lemma LeafCut(o: Origin, t: Tree, path: seq<Step>, ws: seq<nat>, cut: nat)
    requires OriginOk(o) && Sweep(o, t, path, ws, Depth(o.t[0]), cut)
    ensures |path| == Depth(o.t[0]) + 1 && Level(o, path, ws, Depth(o.t[0]), Depth(o.t[0]))
    ensures cut == o.g.lo[LeafOf(path)] && o.g.hi[LeafOf(path)] <= EXT_MAX_BLOCKS
  {
  }

  /** Removing the rest of a leaf moves the boundary of what is freed to the leaf's end. */
  lemma MoreData(m: map<nat, nat>, from: nat, lo: nat, hi: nat)
    requires lo < hi && from < hi
    ensures Trace(m, from, lo) + Trace(m, Max(from, lo), hi) == Trace(m, from, hi)
  {
    if from <= lo {
      TraceSplit(m, from, lo, hi);
    } else {
      assert Trace(m, from, lo) == [];
    }
  }

  /** The walk never stays: at an unchanged boundary it comes closer to the next leaf. */
  lemma RankDown(o: Origin, path: seq<Step>, ws: seq<nat>, i: nat, c: nat)
    requires 0 in o.t && |path| == Depth(o.t[0]) + 1 && i < Depth(o.t[0]) && i < |ws|
    requires path[i].addr in o.t && o.t[path[i].addr].Inner? && ws[i] < |o.t[path[i].addr].ents|
    requires c in o.t && (o.t[c].Leaf? || o.t[c].ents != [])
    ensures Rank(o, path[i + 1 := Step(c, 0)], DownWs(o, ws, i), i + 1) < Rank(o, path, ws, i)
  {
  }

  lemma RankUp(o: Origin, path: seq<Step>, ws: seq<nat>, i: nat, path': seq<Step>, ws': seq<nat>)
    requires 0 in o.t && |path| == Depth(o.t[0]) + 1 == |path'| && i < Depth(o.t[0]) && i < |ws|
    requires path[i].addr in o.t && o.t[path[i].addr].Inner? && ws[i] == |o.t[path[i].addr].ents|
    ensures Rank(o, path', ws', i - 1) < Rank(o, path, ws, i)
  {
  }

  lemma NonEmptyInner(o: Origin, c: nat)
    requires OriginOk(o) && c in o.t
    ensures o.t[c].Leaf? || o.t[c].ents != []
  {
    assert NodeOk(o.t, o.g, o.m, c);
  }

  /** The path ends at an extent that covers `x`. */
  predicate EndsInside(t: Tree, path: seq<Step>, x: nat) {
    && path != [] && LeafOf(path) in t && t[LeafOf(path)].Leaf?
    && path[|path| - 1].pos < |t[LeafOf(path)].exts|
    && Covers(t[LeafOf(path)].exts[path[|path| - 1].pos], x)
  }

  /** The walk begins at the leaf that holds `from`. */
  lemma WalkBegins(o: Origin, path: seq<Step>)
    requires OriginOk(o) && PathOk(o.t, o.g, path, o.from, o.from + 1)
    requires EndsInside(o.t, path, o.from)
    ensures path != [] && LeafOf(path) in o.g.lo && o.g.lo[LeafOf(path)] <= EXT_MAX_BLOCKS
    ensures Walk(o, o.t, path, Positions(path, |path| - 1), |path| - 1, o.g.lo[LeafOf(path)], [], [])
  {
    assert NodeOk(o.t, o.g, o.m, LeafOf(path));
    assert |path| == Depth(o.t[0]) + 1 && o.g.lo[LeafOf(path)] <= o.from;
    hide OriginOk, PathOk, Sweep;
    SweepStart(o, path);
  }

  /** One visit to a leaf. */
  method VisitLeaf(f: ExtentFile, path: seq<Step>, from: nat, nodes: seq<nat>, data: seq<nat>,
                   ghost o: Origin, ghost ws: seq<nat>, ghost cut: nat)
    returns (path': seq<Step>, nodes': seq<nat>, data': seq<nat>, ghost ws': seq<nat>, ghost cut': nat)
    requires OriginOk(o) && Walk(o, f.nodes, path, ws, |path| - 1, cut, nodes, data)
    requires LeafOf(path) in f.nodes && f.nodes[LeafOf(path)].Leaf? && from == o.from
    modifies f`nodes
    ensures Walk(o, f.nodes, path', ws', |path| - 2, cut', nodes', data') && |path'| == |path|
    ensures f.nodes.Keys <= old(f.nodes).Keys
    ensures cut < cut' <= EXT_MAX_BLOCKS
  {
    hide OriginOk, Sweep, Finished, CutTree, LeafOk, LeafStart, Trace, FreedNodes;
    var i := |path| - 1;
    var a, p := path[i].addr, path[i].pos;
    LeafCut(o, f.nodes, path, ws, cut);
    LeafFinished(o, f.nodes, path, ws, cut);
    var rest, freed := RemoveLeaf(f.nodes[a].exts, p, from, o.g, o.m, a);
    data' := data + freed;
    cut' := o.g.hi[a];
    MoreData(o.m, o.from, cut, cut');
    ghost var keys := f.nodes.Keys;
    SetLeafKeys(f.nodes, a, rest);
    FreedSame(o, f.nodes, SetLeaf(f.nodes, a, rest), nodes);
    f.nodes := SetLeaf(f.nodes, a, rest);
    path', nodes', ws' := GoUp(f, path, i, rest == [], o, ws, nodes, data');
  }

  lemma SetLeafKeys(t: Tree, a: nat, exts: seq<Extent>)
    requires a in t && t[a].Leaf?
    ensures SetLeaf(t, a, exts).Keys == t.Keys && (HasKey(SetLeaf(t, a, exts)[a]) <==> exts != [])
  {
  }

  lemma FreedSame(o: Origin, t: Tree, t': Tree, freed: seq<nat>)
    requires FreedNodes(o, t, freed) && t.Keys == t'.Keys
    ensures FreedNodes(o, t', freed)
  {
  }

  /** One visit to an index node: down to the next child, or back up when none is left. */
  method VisitIndex(f: ExtentFile, path: seq<Step>, i: nat, nodes: seq<nat>, ghost data: seq<nat>,
                    ghost o: Origin, ghost ws: seq<nat>, ghost cut: nat)
    returns (path': seq<Step>, i': int, nodes': seq<nat>, ghost ws': seq<nat>)
    requires OriginOk(o) && Walk(o, f.nodes, path, ws, i, cut, nodes, data) && i < |path| - 1
    requires path[i].addr in f.nodes && f.nodes[path[i].addr].Inner?
    modifies f`nodes
    ensures |path'| == |path| && i' < |path'|
    ensures Walk(o, f.nodes, path', ws', i', cut, nodes', data)
    ensures f.nodes.Keys <= old(f.nodes).Keys
    ensures Rank(o, path', ws', i') < Rank(o, path, ws, i)
  {
    hide OriginOk, Sweep, Finished, CutTree, AtLeaf, Trace, FreedNodes, Rank;
    AtIndex(o, f.nodes, path, ws, i, cut);
    var a := path[i].addr;
    if path[i].pos < |f.nodes[a].ents| {
      SweepDown(o, f.nodes, path, ws, i, cut);
      var c := f.nodes[a].ents[path[i].pos].addr;
      path', i', nodes', ws' := path[i + 1 := Step(c, 0)], i + 1, nodes, DownWs(o, ws, i);
      NonEmptyInner(o, c);
      RankDown(o, path, ws, i, c);
      if i' == |path| - 1 {
        ArriveAtLeaf(o, f.nodes, path', ws', i + 1, cut);
      }
    } else {
      SweepFinished(o, f.nodes, path, ws, i, cut);
      i' := i - 1;
      path', nodes', ws' := GoUp(f, path, i, f.nodes[a].ents == [], o, ws, nodes, data);
      RankUp(o, path, ws, i, path', ws');
    }
  }

  lemma WalkNode(o: Origin, t: Tree, path: seq<Step>, ws: seq<nat>, i: nat, cut: nat, nodes: seq<nat>, data: seq<nat>)
    requires OriginOk(o) && Walk(o, t, path, ws, i, cut, nodes, data)
    ensures path[i].addr in t && (t[path[i].addr].Leaf? <==> i == |path| - 1)
  {
    hide OriginOk;
    assert Level(o, path, ws, i, i) && Content(o, t, path, ws, i, i);
    DepthZeroLeaf(o, path[i].addr);
  }

  /** The walk over all nodes from the leaf that holds `from` to the right. */
  method WalkRight(f: ExtentFile, path0: seq<Step>, from: nat, ghost o: Origin)
    returns (nodes: seq<nat>, data: seq<nat>)
    requires OriginOk(o) && o.from == from && f.nodes == o.t
    requires path0 != [] && LeafOf(path0) in o.g.lo && o.g.lo[LeafOf(path0)] <= EXT_MAX_BLOCKS
    requires Walk(o, o.t, path0, Positions(path0, |path0| - 1), |path0| - 1, o.g.lo[LeafOf(path0)], [], [])
    modifies f`nodes
    ensures CutTree(o.t, from, f.nodes) && FreedNodes(o, f.nodes, nodes)
    ensures data == Trace(o.m, from, EXT_MAX_BLOCKS) && 0 in f.nodes
    ensures f.nodes.Keys <= o.t.Keys
  {
    hide OriginOk, Walk, Rank, Trace, CutTree, FreedNodes;
    var path, i := path0, |path0| - 1;
    nodes, data := [], [];
    ghost var ws, cut := Positions(path, |path| - 1), o.g.lo[LeafOf(path)];
    WalkFacts(o, f.nodes, path, ws, i, cut, nodes, data);
    while i >= 0
      invariant -1 <= i < |path| == |path0| && 0 in o.t
      invariant Walk(o, f.nodes, path, ws, i, cut, nodes, data) && cut <= EXT_MAX_BLOCKS
      invariant f.nodes.Keys <= o.t.Keys
      decreases EXT_MAX_BLOCKS - cut, Rank(o, path, ws, i)
    {
      WalkNode(o, f.nodes, path, ws, i, cut, nodes, data);
      if i == |path| - 1 {
        path, nodes, data, ws, cut := VisitLeaf(f, path, from, nodes, data, o, ws, cut);
        i := i - 1;
      } else {
        path, i, nodes, ws := VisitIndex(f, path, i, nodes, data, o, ws, cut);
      }
      WalkFacts(o, f.nodes, path, ws, i, cut, nodes, data);
    }
    WalkOver(o, f.nodes, path, ws, cut, nodes, data);
  }

  lemma WalkFacts(o: Origin, t: Tree, path: seq<Step>, ws: seq<nat>, i: int, cut: nat, nodes: seq<nat>, data: seq<nat>)
    requires Walk(o, t, path, ws, i, cut, nodes, data)
    ensures 0 in o.t && -1 <= i < |path|
  {
  }

  /** Removing everything from a block on, when the block is mapped. */
  method RemoveFrom(f: ExtentFile, path0: seq<Step>, from: nat) returns (nodes: seq<nat>, data: seq<nat>)
    requires TreeOk(BlockCap(f.blockSize), f.nodes, f.layout, f.blocks)
    requires from < EXT_MAX_BLOCKS && PathOk(f.nodes, f.layout, path0, from, from + 1)
    requires EndsInside(f.nodes, path0, from)
    modifies f`nodes, f`layout, f`blocks
    ensures TreeOk(BlockCap(f.blockSize), f.nodes, f.layout, f.blocks)
    ensures f.nodes.Keys <= old(f.nodes).Keys && f.blocks == Below(old(f.blocks), from)
    ensures data == Trace(old(f.blocks), from, EXT_MAX_BLOCKS)
    ensures FreedNodes(Origin(old(f.nodes), old(f.layout), old(f.blocks), from), f.nodes, nodes)
  {
    ghost var o := Origin(f.nodes, f.layout, f.blocks, from);
    hide OriginOk, Walk, Trace, TreeOk, CutTree, PathOk, FreedNodes, Below, CutLayout, ResetRoot, EndsInside,
      Positions, BlockCap, LeafOf;
    OriginFrom(BlockCap(f.blockSize), o);
    WalkBegins(o, path0);
    nodes, data := WalkRight(f, path0, from, o);
    CutKeeps(BlockCap(f.blockSize), o.t, o.g, o.m, from, f.nodes);
    ghost var t := f.nodes;
    f.nodes := ResetRoot(f.nodes);
    ResetKeys(t);
    f.layout, f.blocks := CutLayout(o.g, from), Below(o.m, from);
    FreedSame(o, t, f.nodes, nodes);
  }

  lemma OriginFrom(blockCap: nat, o: Origin)
    requires TreeOk(blockCap, o.t, o.g, o.m) && o.from < EXT_MAX_BLOCKS
    ensures OriginOk(o)
  {
  }

  lemma ResetKeys(t: Tree)
    requires 0 in t
    ensures ResetRoot(t).Keys == t.Keys
  {
  }

  lemma FreedMeans(o: Origin, t: Tree, nodes: seq<nat>)
    requires FreedNodes(o, t, nodes)
    ensures Distinct(nodes) && forall a :: a in nodes <==> a in o.t && a !in t
  {
  }

  lemma WalkOver(o: Origin, t: Tree, path: seq<Step>, ws: seq<nat>, cut: nat, nodes: seq<nat>, data: seq<nat>)
    requires Walk(o, t, path, ws, -1, cut, nodes, data)
    ensures CutTree(o.t, o.from, t) && FreedNodes(o, t, nodes) && data == Trace(o.m, o.from, EXT_MAX_BLOCKS)
    ensures 0 in t
  {
  }

  /**
   * Remove the blocks from `from` to the end of the file.  A search that does not end inside an
   * extent makes the call a silent no-op.
   */
  method RemoveSpace(f: ExtentFile, from: nat) returns (nodes: seq<nat>, data: seq<nat>)
    requires f.Valid() && from < EXT_MAX_BLOCKS
    modifies f`nodes, f`layout, f`blocks
    ensures f.Valid()
    ensures from in old(f.blocks) ==>
      && f.blocks == Below(old(f.blocks), from)
      && data == Trace(old(f.blocks), from, EXT_MAX_BLOCKS)
    ensures from !in old(f.blocks) ==>
      f.nodes == old(f.nodes) && f.blocks == old(f.blocks) && data == []
    ensures Distinct(nodes) && forall a :: a in nodes <==> a in old(f.nodes) && a !in f.nodes
    ensures Distinct(data) && forall a :: a in data ==>
      a !in f.pool && a !in old(f.nodes) && forall x :: x in f.blocks ==> f.blocks[x] != a
    ensures f.blocks == Below(old(f.blocks), from) <==>
      from in old(f.blocks) || forall x :: x in old(f.blocks) ==> x < from
  {
    nodes, data := [], [];
    hide ShapeOk, RestOk, PathOk;
    var path := f.FindExtent(from);
    PathLeaf(f.nodes, f.layout, f.blocks, path, from);
    var exts, p := f.nodes[LeafOf(path)].exts, path[|path| - 1].pos;
    if exts == [] || !Covers(exts[p], from) {
      BelowSame(f.blocks, from);
      return;
    }
    ghost var o := Origin(f.nodes, f.layout, f.blocks, from);
    nodes, data := RemoveFrom(f, path, from);
    FreedMeans(o, f.nodes, nodes);
    FreedOnce(o.t, o.m, f.pool, from, EXT_MAX_BLOCKS);
  }

  /** Blocks that are used once are freed once. */
  lemma {:induction false} FreedOnce(t: Tree, m: map<nat, nat>, pool: seq<nat>, from: nat, end: nat)
    requires UsedOnce(t, m, pool)
    ensures Distinct(Trace(m, from, end))
    ensures forall a :: a in Trace(m, from, end) ==>
      a !in pool && a !in t && forall x :: x in m && (x < from || x >= end) ==> m[x] != a
    decreases end
  {
    if from < end {
      FreedOnce(t, m, pool, from, end - 1);
    }
  }

  lemma BelowSame(m: map<nat, nat>, from: nat)
    ensures m == Below(m, from) <==> forall x :: x in m ==> x < from
  {
    if m == Below(m, from) {
      forall x | x in m ensures x < from {
        assert x in Below(m, from);
      }
    }
  }

  /** A file with one mapped block behind a hole: truncating it from inside the hole would have to remove the block. */
  lemma TruncateInHole()
    ensures var t := map[0 := Leaf(ROOT_CAP, [Extent(5, 1, 100)])];
      var g := Layout(map[0 := 0], map[0 := EXT_MAX_BLOCKS], map[]);
      var m := map[5 := 100];
      TreeOk(BlockCap(1024), t, g, m) && 3 !in m && m != Below(m, 3)
  {
    var exts := [Extent(5, 1, 100)];
    var m := map[5 := 100];
    var g := Layout(map[0 := 0], map[0 := EXT_MAX_BLOCKS], map[]);
    assert Covers(exts[0], 5);
    assert CoveredBy(exts, 5);
    assert LeafOk(g, m, 0, exts);
    assert 5 in m && 5 !in Below(m, 3);
  }
}
