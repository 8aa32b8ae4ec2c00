/**
 * What each single rewrite of the tree does to the layout and the map:
 * reading, growing the root, splitting a leaf, splitting an index node, linking the
 * new node into its parent, placing an extent, and repairing index keys.
 */
module ExtentSteps {
  import opened ExtentNodes

  function Get(m: map<nat, nat>, x: nat): Option<nat> {
    if x in m then Some(m[x]) else None
  }

  // ----- lookup agrees with the map -----

  lemma {:induction false} ExtentSlotIs(exts: seq<Extent>, x: nat)
    requires Sorted(exts) && exts != []
    requires forall i :: 0 <= i < |exts| ==> exts[i].len >= 1
    ensures var r := ExtentSlot(exts, x);
      && (r == 0 || exts[r].first <= x)
      && (r + 1 < |exts| ==> x < exts[r + 1].first)
  {
    if |exts| > 1 && exts[|exts| - 1].first > x {
      var front := exts[..|exts| - 1];
      ExtentSlotIs(front, x);
    }
  }

  lemma {:induction false} IndexSlotIs(ents: seq<Index>, x: nat)
    requires SortedKeys(ents) && ents != []
    ensures var r := IndexSlot(ents, x);
      && (r == 0 || ents[r].key <= x)
      && (r + 1 < |ents| ==> x < ents[r + 1].key)
  {
    if |ents| > 1 && ents[|ents| - 1].key > x {
      var front := ents[..|ents| - 1];
      IndexSlotIs(front, x);
    }
  }

  lemma {:induction false} ExtentSlotUnique(exts: seq<Extent>, x: nat, i: nat)
    requires i < |exts| && (i == 0 || exts[i].first <= x)
    requires forall j :: i < j < |exts| ==> x < exts[j].first
    ensures ExtentSlot(exts, x) == i
  {
    if i + 1 < |exts| {
      ExtentSlotUnique(exts[..|exts| - 1], x, i);
    }
  }

  lemma {:induction false} IndexSlotUnique(ents: seq<Index>, x: nat, i: nat)
    requires i < |ents| && (i == 0 || ents[i].key <= x)
    requires forall j :: i < j < |ents| ==> x < ents[j].key
    ensures IndexSlot(ents, x) == i
  {
    if i + 1 < |ents| {
      IndexSlotUnique(ents[..|ents| - 1], x, i);
    }
  }

  /** Only the extent in the searched slot can cover a block. */
  lemma CoveredInSlot(exts: seq<Extent>, x: nat, i: nat)
    requires Sorted(exts) && i < |exts| && Covers(exts[i], x)
    ensures ExtentSlot(exts, x) == i
  {
    ExtentSlotUnique(exts, x, i);
  }

  lemma LeafLookupIsMap(g: Layout, m: map<nat, nat>, a: nat, exts: seq<Extent>, x: nat)
    requires Placed(g, a) && LeafOk(g, m, a, exts)
    requires g.lo[a] <= x < g.hi[a]
    ensures LeafLookup(exts, x) == Get(m, x)
  {
    if x in m {
      assert CoveredBy(exts, x);
      var i :| 0 <= i < |exts| && Covers(exts[i], x);
      CoveredInSlot(exts, x, i);
    } else if exts != [] {
      var e := exts[ExtentSlot(exts, x)];
      assert ExtentOk(g, m, a, e);
    }
  }

  lemma {:induction false} LookupIsMap(t: Tree, g: Layout, m: map<nat, nat>, a: nat, x: nat)
    requires ShapeOk(t, g, m) && a in t && Placed(g, a)
    requires g.lo[a] <= x < g.hi[a]
    ensures Lookup(t, a, Depth(t[a]), x) == Get(m, x)
    decreases Depth(t[a])
  {
    assert NodeOk(t, g, m, a);
    match t[a] {
      case Leaf(_, exts) => LeafLookupIsMap(g, m, a, exts, x);
      case Inner(depth, _, ents) =>
        IndexSlotIs(ents, x);
        var j := IndexSlot(ents, x);
        assert ChildOk(t, g, a, depth, ents, j);
        LookupIsMap(t, g, m, ents[j].addr, x);
    }
  }

  /** A well-formed tree, read by walking it, is the abstract block map. */
  lemma FileBlockIsMap(t: Tree, g: Layout, m: map<nat, nat>, x: nat)
    requires ShapeOk(t, g, m)
    requires x < EXT_MAX_BLOCKS
    ensures FileBlock(t, x) == Get(m, x)
  {
    assert NodeOk(t, g, m, 0);
    LookupIsMap(t, g, m, 0, x);
  }

  // ----- one path through the tree -----

  /** One level of the path array: the node and the position chosen in it. */
  datatype Step = Step(addr: nat, pos: nat)

  /** The path is a chain of nodes from the root to a leaf. */
  ghost predicate Linked(t: Tree, path: seq<Step>) {
    && 0 in t && |path| == Depth(t[0]) + 1
    && path[0].addr == 0
    && (forall i :: 0 <= i < |path| ==> LinkedAt(t, path, i))
  }

  ghost predicate LinkedAt(t: Tree, path: seq<Step>, i: nat)
    requires i < |path|
  {
    var a := path[i].addr;
    && a in t
    && Depth(t[a]) == |path| - 1 - i
    && (i + 1 < |path| ==>
          && t[a].Inner? && path[i].pos < |t[a].ents|
          && t[a].ents[path[i].pos].addr == path[i + 1].addr)
    && (i + 1 == |path| ==> t[a].Leaf?)
  }

  /** All nodes of the path are responsible for the blocks from `x` up to `y`. */
  ghost predicate InRange(g: Layout, path: seq<Step>, x: nat, y: nat) {
    forall i :: 0 <= i < |path| ==>
      Placed(g, path[i].addr) && g.lo[path[i].addr] <= x < y <= g.hi[path[i].addr]
  }

  ghost predicate SlotOk(exts: seq<Extent>, p: nat, x: nat) {
    if exts == [] then p == 0
    else
      && p < |exts|
      && (p == 0 || exts[p].first <= x)
      && (p + 1 < |exts| ==> x < exts[p + 1].first)
  }

  /** The path leads to the leaf, and in it to the extent, that the search for `x` ends at. */
  ghost predicate PathOk(t: Tree, g: Layout, path: seq<Step>, x: nat, y: nat) {
    && Linked(t, path)
    && InRange(g, path, x, y)
    && LinkedAt(t, path, |path| - 1)
    && SlotOk(t[path[|path| - 1].addr].exts, path[|path| - 1].pos, x)
  }

  // ----- growing the tree by one level -----

  function Grown(t: Tree, n: nat, blockCap: nat): Tree
    requires 0 in t && HasKey(t[0])
  {
    t[n := t[0].(cap := blockCap)]
     [0 := Inner(Depth(t[0]) + 1, ROOT_CAP, [Index(FirstKey(t[0]), n)])]
  }

  ghost function GrownLayout(g: Layout, n: nat): Layout {
    Layout(g.lo[n := 0], g.hi[n := EXT_MAX_BLOCKS],
           (map c | c in g.up :: if g.up[c] == 0 then n else g.up[c])[n := 0])
  }

  /** The old root, moved to block `n`. */
  lemma GrowCopy(t: Tree, g: Layout, m: map<nat, nat>, n: nat, blockCap: nat)
    requires RootOk(t, g) && NodeOk(t, g, m, 0)
    requires n != 0 && n !in t && HasKey(t[0])
    ensures NodeOk(Grown(t, n, blockCap), GrownLayout(g, n), m, n)
  {
    var t', g' := Grown(t, n, blockCap), GrownLayout(g, n);
    if t[0].Inner? {
      forall j | 0 <= j < |t[0].ents| ensures ChildOk(t', g', n, t[0].depth, t[0].ents, j) {
        assert ChildOk(t, g, 0, t[0].depth, t[0].ents, j);
      }
    } else {
      forall i | 0 <= i < |t[0].exts| ensures ExtentOk(g', m, n, t[0].exts[i]) {
        assert ExtentOk(g, m, 0, t[0].exts[i]);
      }
    }
  }

  /** The new root has one entry and owns the whole file. */
  lemma GrowRoot(t: Tree, g: Layout, m: map<nat, nat>, n: nat, blockCap: nat)
    requires RootOk(t, g) && NodeOk(t, g, m, 0)
    requires n != 0 && n !in t && HasKey(t[0])
    ensures NodeOk(Grown(t, n, blockCap), GrownLayout(g, n), m, 0)
  {
    var t', g' := Grown(t, n, blockCap), GrownLayout(g, n);
    if t[0].Leaf? {
      assert ExtentOk(g, m, 0, t[0].exts[0]);
    } else {
      assert t[0].ents[0].key <= t[0].ents[|t[0].ents| - 1].key;
    }
    assert ChildOk(t', g', 0, t'[0].depth, t'[0].ents, 0);
  }

  lemma GrowOther(t: Tree, g: Layout, m: map<nat, nat>, n: nat, blockCap: nat, a: nat)
    requires 0 in t && a in t && a != 0 && NodeOk(t, g, m, a)
    requires n != 0 && n !in t && HasKey(t[0])
    ensures NodeOk(Grown(t, n, blockCap), GrownLayout(g, n), m, a)
  {
    SameNode(t, g, m, Grown(t, n, blockCap), GrownLayout(g, n), m, a);
  }

  lemma GrowHangs(t: Tree, g: Layout, n: nat, blockCap: nat)
    requires AllHang(t, g, 0)
    requires n != 0 && n !in t && 0 in t && HasKey(t[0])
    ensures AllHang(Grown(t, n, blockCap), GrownLayout(g, n), 0)
  {
    var t', g' := Grown(t, n, blockCap), GrownLayout(g, n);
    forall c | c in t' && c != 0 ensures Hangs(t', g', c) {
      if c == n {
        assert t'[0].ents[0].addr == n;
      } else {
        assert Hangs(t, g, c);
      }
    }
  }

  lemma GrowKeeps(t: Tree, g: Layout, m: map<nat, nat>, n: nat, blockCap: nat)
    requires TreeOk(blockCap, t, g, m)
    requires n != 0 && n !in t && HasKey(t[0]) && ROOT_CAP < blockCap
    ensures TreeOk(blockCap, Grown(t, n, blockCap), GrownLayout(g, n), m)
  {
    var t', g' := Grown(t, n, blockCap), GrownLayout(g, n);
    forall a | a in t' ensures NodeOk(t', g', m, a) {
      assert NodeOk(t, g, m, 0);
      if a == 0 {
        GrowRoot(t, g, m, n, blockCap);
      } else if a == n {
        GrowCopy(t, g, m, n, blockCap);
      } else {
        GrowOther(t, g, m, n, blockCap, a);
      }
    }
    GrowHangs(t, g, n, blockCap);
  }

  /** A node whose own record, range and children look as before is still fine. */
  lemma SameNode(t: Tree, g: Layout, m: map<nat, nat>, t': Tree, g': Layout, m': map<nat, nat>, a: nat)
    requires a in t && NodeOk(t, g, m, a)
    requires a in t' && Placed(g', a) && g'.lo[a] == g.lo[a] && g'.hi[a] == g.hi[a]
    requires t'[a] == t[a] || (t[a].Inner? && t'[a].Inner? && t'[a].ents == t[a].ents && t'[a].depth == t[a].depth)
    requires t[a].Leaf? ==> forall x :: g.lo[a] <= x < g.hi[a] ==> Get(m, x) == Get(m', x)
    requires t[a].Inner? ==> forall c :: c in t && c in g.up && g.up[c] == a && c != 0 && Placed(g, c) ==>
        && c in t' && c in g'.up && g'.up[c] == a
        && Placed(g', c) && g'.lo[c] == g.lo[c] && g'.hi[c] == g.hi[c]
        && Depth(t'[c]) == Depth(t[c])
        && (HasKey(t'[c]) ==> HasKey(t[c]) && FirstKey(t'[c]) == FirstKey(t[c]))
    ensures NodeOk(t', g', m', a)
  {
    match t[a] {
      case Leaf(_, exts) =>
        forall i | 0 <= i < |exts| ensures ExtentOk(g', m', a, exts[i]) {
          assert ExtentOk(g, m, a, exts[i]);
          forall x | Covers(exts[i], x) ensures x in m' && m'[x] == Phys(exts[i], x) {
            assert Get(m, x) == Get(m', x);
          }
        }
        forall x | x in m' && g.lo[a] <= x < g.hi[a] ensures CoveredBy(exts, x) {
          assert Get(m, x) == Get(m', x);
        }
      case Inner(depth, _, ents) =>
        forall j | 0 <= j < |ents| ensures ChildOk(t', g', a, depth, ents, j) {
          assert ChildOk(t, g, a, depth, ents, j);
        }
    }
  }

  /** A change that touches only the nodes in `ch` leaves every node alone that is not their parent. */
  lemma Elsewhere(t: Tree, g: Layout, m: map<nat, nat>, t': Tree, g': Layout, m': map<nat, nat>,
                  ch: set<nat>, b: nat)
    requires b in t && NodeOk(t, g, m, b)
    requires b in t' && t'[b] == t[b] && b in g'.lo && b in g'.hi && g'.lo[b] == g.lo[b] && g'.hi[b] == g.hi[b]
    requires t[b].Leaf? ==> forall x :: g.lo[b] <= x < g.hi[b] ==> Get(m, x) == Get(m', x)
    requires forall c :: c in t && c !in ch && Placed(g, c) && c in g.up ==>
        c in t' && t'[c] == t[c] && Placed(g', c) && g'.lo[c] == g.lo[c] && g'.hi[c] == g.hi[c]
        && c in g'.up && g'.up[c] == g.up[c]
    requires forall c :: c in ch && c in g.up ==> g.up[c] != b
    ensures NodeOk(t', g', m', b)
  {
    SameNode(t, g, m, t', g', m', b);
  }

  // ----- splitting a node -----

  /** The entries of a parent once the new right sibling with key `k` is linked after `pos`. */
  function WithEntry(ents: seq<Index>, pos: nat, k: nat, r: nat): seq<Index>
    requires pos < |ents|
  {
    ents[..pos + 1] + [Index(k, r)] + ents[pos + 1..]
  }

  ghost function SplitLayout(g: Layout, a: nat, r: nat, k: nat, moved: set<nat>): Layout
    requires a in g.hi && a in g.up
  {
    Layout(g.lo[r := k], g.hi[r := g.hi[a]][a := k],
           (map c | c in g.up :: if c in moved then r else g.up[c])[r := g.up[a]])
  }

  function LeafSplit(t: Tree, a: nat, p: nat, r: nat, blockCap: nat): Tree
    requires a in t && t[a].Leaf? && p < |t[a].exts|
  {
    t[a := t[a].(exts := t[a].exts[..p + 1])][r := Leaf(blockCap, t[a].exts[p + 1..])]
  }

  /** `k` separates the first `p + 1` extents of a leaf from the rest. */
  ghost predicate SplitsLeaf(g: Layout, a: nat, exts: seq<Extent>, p: nat, k: nat)
    requires Placed(g, a)
  {
    && p < |exts| && exts[p].first + exts[p].len <= k < g.hi[a]
    && (p + 1 < |exts| ==> k == exts[p + 1].first)
  }

  lemma LeafSplitHalves(t: Tree, g: Layout, m: map<nat, nat>, a: nat, p: nat, k: nat, r: nat, blockCap: nat)
    requires a in t && t[a].Leaf? && NodeOk(t, g, m, a)
    requires a in g.up && r !in t && SplitsLeaf(g, a, t[a].exts, p, k)
    ensures var t', g' := LeafSplit(t, a, p, r, blockCap), SplitLayout(g, a, r, k, {});
      NodeOk(t', g', m, a) && NodeOk(t', g', m, r)
  {
    var exts := t[a].exts;
    var t', g' := LeafSplit(t, a, p, r, blockCap), SplitLayout(g, a, r, k, {});
    var left, right := exts[..p + 1], exts[p + 1..];
    assert ExtentOk(g, m, a, exts[p]);
    forall i | 0 <= i < |left| ensures ExtentOk(g', m, a, left[i]) {
      assert ExtentOk(g, m, a, exts[i]);
      assert i < p ==> exts[i].first + exts[i].len <= exts[p].first;
    }
    forall i | 0 <= i < |right| ensures ExtentOk(g', m, r, right[i]) {
      assert right[i] == exts[p + 1 + i];
      assert ExtentOk(g, m, a, exts[p + 1 + i]);
      assert i > 0 ==> exts[p + 1].first + exts[p + 1].len <= exts[p + 1 + i].first;
    }
    forall x | x in m && g.lo[a] <= x < g.hi[a] ensures if x < k then CoveredBy(left, x) else CoveredBy(right, x) {
      assert CoveredBy(exts, x);
      var i :| 0 <= i < |exts| && Covers(exts[i], x);
      assert i < p ==> exts[i].first + exts[i].len <= exts[p].first;
      assert p + 1 < i ==> exts[p + 1].first + exts[p + 1].len <= exts[i].first;
      if x < k {
        assert Covers(left[i], x);
      } else {
        assert Covers(right[i - (p + 1)], x);
      }
    }
  }

  /** In `t'` the node `a` of `t` has kept what lies below `k`, and the new node `r` has the rest. */
  ghost predicate SplitOff(t: Tree, g: Layout, t': Tree, a: nat, k: nat, r: nat, moved: set<nat>) {
    && a in t && a != 0 && r !in t && r != 0 && a !in moved && r !in moved
    && Placed(g, a) && a in g.up && g.lo[a] < k < g.hi[a]
    && HasKey(t[a]) && FirstKey(t[a]) < k
    && (forall c :: c in moved ==> c in g.up && g.up[c] == a)
    && t'.Keys == t.Keys + {r}
    && (forall c :: c in t && c != a ==> t'[c] == t[c])
    && Depth(t'[a]) == Depth(t[a]) && (HasKey(t'[a]) ==> FirstKey(t'[a]) == FirstKey(t[a]))
    && Depth(t'[r]) == Depth(t[a]) && (HasKey(t'[r]) ==> FirstKey(t'[r]) == k)
  }

  lemma WithEntryAt(ents: seq<Index>, pos: nat, k: nat, r: nat, j: nat)
    requires pos < |ents| && j <= |ents|
    ensures WithEntry(ents, pos, k, r)[j] ==
      if j <= pos then ents[j] else if j == pos + 1 then Index(k, r) else ents[j - 1]
  {
  }

  lemma WithEntrySorted(ents: seq<Index>, pos: nat, k: nat, r: nat)
    requires pos < |ents| && SortedKeys(ents)
    requires ents[pos].key < k && (pos + 1 < |ents| ==> k < ents[pos + 1].key)
    ensures SortedKeys(WithEntry(ents, pos, k, r))
  {
    var v := WithEntry(ents, pos, k, r);
    forall i, j | 0 <= i < j < |v| ensures v[i].key < v[j].key {
      WithEntryAt(ents, pos, k, r, i);
      WithEntryAt(ents, pos, k, r, j);
    }
  }

  lemma SplitParentChild(t: Tree, g: Layout, t': Tree, a: nat, k: nat, r: nat, moved: set<nat>,
                         q: nat, depth: nat, ents: seq<Index>, pos: nat, j: nat)
    requires SplitOff(t, g, t', a, k, r, moved)
    requires Placed(g, q) && q != a && q in t && pos < |ents| && j <= |ents|
    requires g.up[a] == q && SortedKeys(ents)
    requires ents[pos].addr == a && ChildOk(t, g, q, depth, ents, pos)
    requires j != pos + 1 ==> ChildOk(t, g, q, depth, ents, if j <= pos then j else j - 1)
    ensures ChildOk(t', SplitLayout(g, a, r, k, moved), q, depth, WithEntry(ents, pos, k, r), j)
  {
    WithEntryAt(ents, pos, k, r, j);
    if j < |ents| {
      WithEntryAt(ents, pos, k, r, j + 1);
    }
  }

  /** The parent, judged with the new entry included, is fine after either kind of split. */
  lemma SplitParent(t: Tree, g: Layout, t': Tree, a: nat, k: nat, r: nat, moved: set<nat>,
                    q: nat, depth: nat, ents: seq<Index>, pos: nat)
    requires SplitOff(t, g, t', a, k, r, moved)
    requires q in t && q != a && Placed(g, q) && g.up[a] == q
    requires InnerOk(t, g, q, depth, ents)
    requires pos < |ents| && ents[pos].addr == a
    ensures InnerOk(t', SplitLayout(g, a, r, k, moved), q, depth, WithEntry(ents, pos, k, r))
  {
    var g' := SplitLayout(g, a, r, k, moved);
    var v := WithEntry(ents, pos, k, r);
    assert ChildOk(t, g, q, depth, ents, pos);
    WithEntrySorted(ents, pos, k, r);
    forall j | 0 <= j < |v| ensures ChildOk(t', g', q, depth, v, j) {
      if j != pos + 1 {
        assert ChildOk(t, g, q, depth, ents, if j <= pos then j else j - 1);
      }
      SplitParentChild(t, g, t', a, k, r, moved, q, depth, ents, pos, j);
    }
    WithEntryAt(ents, pos, k, r, 0);
    WithEntryAt(ents, pos, k, r, |ents|);
  }

  /** Two entries of a node never point to the same child. */
  lemma ChildrenDiffer(t: Tree, g: Layout, a: nat, depth: nat, ents: seq<Index>, i: nat, j: nat)
    requires Placed(g, a) && InnerOk(t, g, a, depth, ents)
    requires i < j < |ents|
    ensures ents[i].addr != ents[j].addr
  {
    assert ChildOk(t, g, a, depth, ents, i);
    assert ChildOk(t, g, a, depth, ents, j);
    assert ents[0].key <= ents[i].key;
  }

  lemma LeafSplitOff(t: Tree, g: Layout, m: map<nat, nat>, a: nat, p: nat, k: nat, r: nat, blockCap: nat)
    requires a in t && a != 0 && r !in t && r != 0 && t[a].Leaf? && NodeOk(t, g, m, a)
    requires a in g.up && SplitsLeaf(g, a, t[a].exts, p, k)
    ensures SplitOff(t, g, LeafSplit(t, a, p, r, blockCap), a, k, r, {})
  {
    var exts := t[a].exts;
    assert ExtentOk(g, m, a, exts[p]);
    assert ExtentOk(g, m, a, exts[0]);
    assert 0 < p ==> exts[0].first + exts[0].len <= exts[p].first;
  }

  /** Splitting a leaf: everything is in order except that the parent still lacks the new entry. */
  lemma LeafSplitKeeps(t: Tree, g: Layout, m: map<nat, nat>, a: nat, p: nat, k: nat, r: nat, blockCap: nat,
                       q: nat, pos: nat)
    requires ShapeOk(t, g, m)
    requires a in t && a != 0 && r !in t && r != 0 && t[a].Leaf? && Placed(g, a)
    requires SplitsLeaf(g, a, t[a].exts, p, k)
    requires q in t && t[q].Inner? && pos < |t[q].ents| && t[q].ents[pos].addr == a
    ensures a in g.up
    ensures ShapeOkWith(LeafSplit(t, a, p, r, blockCap), SplitLayout(g, a, r, k, {}), m,
                        q, WithEntry(t[q].ents, pos, k, r))
  {
    assert NodeOk(t, g, m, a);
    assert NodeOk(t, g, m, q);
    assert ChildOk(t, g, q, t[q].depth, t[q].ents, pos);
    var t', g' := LeafSplit(t, a, p, r, blockCap), SplitLayout(g, a, r, k, {});
    LeafSplitOff(t, g, m, a, p, k, r, blockCap);
    SplitParent(t, g, t', a, k, r, {}, q, t[q].depth, t[q].ents, pos);
    LeafSplitHalves(t, g, m, a, p, k, r, blockCap);
    forall b | b in t' && b != q ensures NodeOk(t', g', m, b) {
      if b != a && b != r {
        SplitOther(t, g, m, t', a, k, r, {}, q, b);
      }
    }
  }

  lemma SplitOther(t: Tree, g: Layout, m: map<nat, nat>, t': Tree, a: nat, k: nat, r: nat, moved: set<nat>,
                   q: nat, b: nat)
    requires SplitOff(t, g, t', a, k, r, moved) && g.up[a] == q
    requires b in t && NodeOk(t, g, m, b) && b != a && b != r && b != q
    ensures NodeOk(t', SplitLayout(g, a, r, k, moved), m, b)
  {
    Elsewhere(t, g, m, t', SplitLayout(g, a, r, k, moved), m, moved + {a}, b);
  }

  /** Splitting an index node after `pos`; the pending entry (k, r0) becomes the first one on the right. */
  function InnerSplit(t: Tree, a: nat, pos: nat, k: nat, r0: nat, r: nat, blockCap: nat): Tree
    requires a in t && t[a].Inner? && pos < |t[a].ents|
  {
    t[a := t[a].(ents := t[a].ents[..pos + 1])]
     [r := Inner(t[a].depth, blockCap, [Index(k, r0)] + t[a].ents[pos + 1..])]
  }

  ghost function MovedChildren(ents: seq<Index>, pos: nat, r0: nat): set<nat>
    requires pos < |ents|
  {
    {r0} + set j | pos < j < |ents| :: ents[j].addr
  }

  lemma InnerSplitLeft(t: Tree, g: Layout, a: nat, pos: nat, k: nat, r0: nat, r: nat, blockCap: nat)
    requires a in t && t[a].Inner? && pos < |t[a].ents| && Placed(g, a) && a in g.up && r !in t && a != r0
    requires InnerOk(t, g, a, t[a].depth, WithEntry(t[a].ents, pos, k, r0))
    requires a !in MovedChildren(t[a].ents, pos, r0)
    ensures var t', g' := InnerSplit(t, a, pos, k, r0, r, blockCap),
                          SplitLayout(g, a, r, k, MovedChildren(t[a].ents, pos, r0));
      Placed(g', a) && InnerOk(t', g', a, t[a].depth, t[a].ents[..pos + 1])
  {
    var depth, ents := t[a].depth, t[a].ents;
    var v, left := WithEntry(ents, pos, k, r0), ents[..pos + 1];
    var moved := MovedChildren(ents, pos, r0);
    var t', g' := InnerSplit(t, a, pos, k, r0, r, blockCap), SplitLayout(g, a, r, k, moved);
    WithEntryAt(ents, pos, k, r0, 0);
    WithEntryAt(ents, pos, k, r0, pos);
    WithEntryAt(ents, pos, k, r0, pos + 1);
    assert v[0].key < v[pos + 1].key;
    assert forall j {:trigger left[j]} :: 0 <= j < |left| ==> left[j] == v[j];
    forall j | 0 <= j < |left| ensures ChildOk(t', g', a, depth, left, j) {
      WithEntryAt(ents, pos, k, r0, j);
      WithEntryAt(ents, pos, k, r0, j + 1);
      assert ChildOk(t, g, a, depth, v, j);
      assert left[j].addr !in moved by {
        NotMoved(t, g, a, depth, ents, pos, k, r0, j);
      }
    }
  }

  lemma NotMoved(t: Tree, g: Layout, a: nat, depth: nat, ents: seq<Index>, pos: nat, k: nat, r0: nat, j: nat)
    requires Placed(g, a) && j <= pos < |ents|
    requires InnerOk(t, g, a, depth, WithEntry(ents, pos, k, r0))
    ensures ents[j].addr !in MovedChildren(ents, pos, r0)
  {
    var v := WithEntry(ents, pos, k, r0);
    WithEntryAt(ents, pos, k, r0, j);
    WithEntryAt(ents, pos, k, r0, pos + 1);
    ChildrenDiffer(t, g, a, depth, v, j, pos + 1);
    forall i | pos < i < |ents| ensures ents[i].addr != ents[j].addr {
      WithEntryAt(ents, pos, k, r0, i + 1);
      ChildrenDiffer(t, g, a, depth, v, j, i + 1);
    }
  }

  lemma InnerSplitRight(t: Tree, g: Layout, a: nat, pos: nat, k: nat, r0: nat, r: nat, blockCap: nat)
    requires a in t && t[a].Inner? && pos < |t[a].ents| && Placed(g, a) && a in g.up && r !in t && a != r0
    requires InnerOk(t, g, a, t[a].depth, WithEntry(t[a].ents, pos, k, r0))
    requires a !in MovedChildren(t[a].ents, pos, r0)
    ensures var t', g' := InnerSplit(t, a, pos, k, r0, r, blockCap),
                          SplitLayout(g, a, r, k, MovedChildren(t[a].ents, pos, r0));
      Placed(g', r) && InnerOk(t', g', r, t[a].depth, [Index(k, r0)] + t[a].ents[pos + 1..])
  {
    var depth, ents := t[a].depth, t[a].ents;
    var v, right := WithEntry(ents, pos, k, r0), [Index(k, r0)] + ents[pos + 1..];
    var moved := MovedChildren(ents, pos, r0);
    var t', g' := InnerSplit(t, a, pos, k, r0, r, blockCap), SplitLayout(g, a, r, k, moved);
    assert forall j {:trigger right[j]} :: 0 <= j < |right| ==> right[j] == v[pos + 1 + j];
    assert v[|v| - 1] == right[|right| - 1] && right[0].key <= right[|right| - 1].key;
    forall j | 0 <= j < |right| ensures ChildOk(t', g', r, depth, right, j) {
      assert ChildOk(t, g, a, depth, v, pos + 1 + j);
      assert right[j].addr in moved by {
        assert j > 0 ==> right[j] == ents[pos + j];
      }
    }
  }

  lemma InnerSplitOff(t: Tree, g: Layout, a: nat, pos: nat, k: nat, r0: nat, r: nat, blockCap: nat)
    requires a in t && t[a].Inner? && pos < |t[a].ents| && Placed(g, a) && a in g.up && r !in t
    requires a != 0 && r != 0
    requires InnerOk(t, g, a, t[a].depth, WithEntry(t[a].ents, pos, k, r0))
    ensures SplitOff(t, g, InnerSplit(t, a, pos, k, r0, r, blockCap), a, k, r, MovedChildren(t[a].ents, pos, r0))
  {
    var depth, ents := t[a].depth, t[a].ents;
    var v, moved := WithEntry(ents, pos, k, r0), MovedChildren(ents, pos, r0);
    WithEntryAt(ents, pos, k, r0, 0);
    WithEntryAt(ents, pos, k, r0, pos + 1);
    assert v[0].key < v[pos + 1].key <= v[|v| - 1].key;
    forall c | c in moved ensures c in t && c in g.up && g.up[c] == a && Depth(t[c]) < depth {
      if c == r0 {
        assert ChildOk(t, g, a, depth, v, pos + 1);
      } else {
        var j :| pos < j < |ents| && ents[j].addr == c;
        WithEntryAt(ents, pos, k, r0, j + 1);
        assert ChildOk(t, g, a, depth, v, j + 1);
      }
    }
  }

  /** Splitting an index node passes the pending entry on to the next level up. */
  lemma InnerSplitKeeps(t: Tree, g: Layout, m: map<nat, nat>, a: nat, pos: nat, k: nat, r0: nat, r: nat,
                        blockCap: nat, q: nat, qpos: nat)
    requires a in t && t[a].Inner? && pos < |t[a].ents| && a != 0 && r !in t && r != 0
    requires ShapeOkWith(t, g, m, a, WithEntry(t[a].ents, pos, k, r0))
    requires q in t && q != a && t[q].Inner? && qpos < |t[q].ents| && t[q].ents[qpos].addr == a
    ensures a in g.up
    ensures ShapeOkWith(InnerSplit(t, a, pos, k, r0, r, blockCap),
                        SplitLayout(g, a, r, k, MovedChildren(t[a].ents, pos, r0)), m,
                        q, WithEntry(t[q].ents, qpos, k, r))
  {
    assert NodeOk(t, g, m, q);
    assert ChildOk(t, g, q, t[q].depth, t[q].ents, qpos);
    var moved := MovedChildren(t[a].ents, pos, r0);
    var t', g' := InnerSplit(t, a, pos, k, r0, r, blockCap), SplitLayout(g, a, r, k, moved);
    InnerSplitOff(t, g, a, pos, k, r0, r, blockCap);
    SplitParent(t, g, t', a, k, r, moved, q, t[q].depth, t[q].ents, qpos);
    InnerSplitLeft(t, g, a, pos, k, r0, r, blockCap);
    InnerSplitRight(t, g, a, pos, k, r0, r, blockCap);
    forall b | b in t' && b != q ensures NodeOk(t', g', m, b) {
      if b != a && b != r {
        SplitOther(t, g, m, t', a, k, r, moved, q, b);
      }
    }
  }

  ghost predicate SameFirstKey(n: Node, ents: seq<Index>) {
    n.Inner? && n.ents != [] && ents != [] && n.ents[0].key == ents[0].key
  }

  lemma SetEntriesSelf(t: Tree, g: Layout, m: map<nat, nat>, q: nat, ents: seq<Index>)
    requires q in t && t[q].Inner? && Placed(g, q)
    requires InnerOk(t, g, q, t[q].depth, ents)
    ensures NodeOk(t[q := t[q].(ents := ents)], g, m, q)
  {
    var t' := t[q := t[q].(ents := ents)];
    forall j | 0 <= j < |ents| ensures ChildOk(t', g, q, t[q].depth, ents, j) {
      assert ChildOk(t, g, q, t[q].depth, ents, j);
    }
  }

  lemma SetEntriesOther(t: Tree, g: Layout, m: map<nat, nat>, q: nat, ents: seq<Index>, b: nat)
    requires q in t && t[q].Inner? && b in t && b != q && NodeOk(t, g, m, b)
    requires SameFirstKey(t[q], ents) || q == 0 || (q in g.up && g.up[q] != b)
    ensures NodeOk(t[q := t[q].(ents := ents)], g, m, b)
  {
    SameNode(t, g, m, t[q := t[q].(ents := ents)], g, m, b);
  }

  /** Writing the judged entries into the node makes the whole tree well-formed. */
  lemma SetEntries(t: Tree, g: Layout, m: map<nat, nat>, q: nat, ents: seq<Index>)
    requires ShapeOkWith(t, g, m, q, ents)
    requires SameFirstKey(t[q], ents) || q == 0
    ensures ShapeOk(t[q := t[q].(ents := ents)], g, m)
  {
    var t' := t[q := t[q].(ents := ents)];
    SetEntriesSelf(t, g, m, q, ents);
    forall b | b in t' ensures NodeOk(t', g, m, b) {
      if b != q {
        SetEntriesOther(t, g, m, q, ents, b);
      }
    }
  }

  lemma KeyRepairChild(t: Tree, g: Layout, q: nat, ents: seq<Index>, u: nat, depth: nat, up: seq<Index>,
                       pos: nat, x: nat, j: nat)
    requires q in t && t[q].Inner? && Placed(g, q) && ents != [] && ents[0].key == x && u != q
    requires Placed(g, u) && pos < |up| && up[pos].addr == q && j < |up|
    requires ChildOk(t, g, u, depth, up, j) && ChildOk(t, g, u, depth, up, pos)
    requires pos > 0 ==> up[pos].key == x
    requires j != pos ==> up[j].addr != q
    ensures ChildOk(t[q := t[q].(ents := ents)], g, u, depth, up[pos := Index(x, q)], j)
  {
  }

  /** When the first key of `q` becomes `x`, the entry for `q` one level up has to follow. */
  lemma KeyRepairUp(t: Tree, g: Layout, m: map<nat, nat>, q: nat, ents: seq<Index>, u: nat, pos: nat)
    requires ShapeOkWith(t, g, m, q, ents) && q != 0 && ents != []
    requires u in t && u != q && t[u].Inner? && pos < |t[u].ents| && t[u].ents[pos].addr == q
    requires pos > 0 ==> t[u].ents[pos].key == ents[0].key
    ensures ShapeOkWith(t[q := t[q].(ents := ents)], g, m, u, t[u].ents[pos := Index(ents[0].key, q)])
  {
    var t' := t[q := t[q].(ents := ents)];
    var x, up, depth := ents[0].key, t[u].ents, t[u].depth;
    var up' := up[pos := Index(x, q)];
    assert NodeOk(t, g, m, u);
    assert ChildOk(t, g, u, depth, up, pos);
    SetEntriesSelf(t, g, m, q, ents);
    assert g.lo[q] <= x <= ents[|ents| - 1].key < g.hi[q];
    forall j | 0 <= j < |up'| ensures ChildOk(t', g, u, depth, up', j) {
      assert ChildOk(t, g, u, depth, up, j);
      if j < pos {
        ChildrenDiffer(t, g, u, depth, up, j, pos);
      } else if pos < j {
        ChildrenDiffer(t, g, u, depth, up, pos, j);
      }
      KeyRepairChild(t, g, q, ents, u, depth, up, pos, x, j);
    }
    forall b | b in t' && b != u ensures NodeOk(t', g, m, b) {
      if b != q {
        SetEntriesOther(t, g, m, q, ents, b);
      }
    }
  }

  // ----- sizes and links during a split -----

  lemma LeafSplitRest(t: Tree, g: Layout, m: map<nat, nat>, a: nat, p: nat, k: nat, r: nat, blockCap: nat)
    requires a in t && a != 0 && r !in t && r != 0 && t[a].Leaf? && NodeOk(t, g, m, a) && a in g.up
    requires SplitsLeaf(g, a, t[a].exts, p, k)
    requires RestOk(blockCap, t, g, m, 0, 0, EXT_MAX_BLOCKS)
    ensures var full := p + 1 == |t[a].exts|;
      RestOk(blockCap, LeafSplit(t, a, p, r, blockCap), SplitLayout(g, a, r, k, {}), m,
             r, if full then r else 0, if full then k else EXT_MAX_BLOCKS)
  {
    var t', g' := LeafSplit(t, a, p, r, blockCap), SplitLayout(g, a, r, k, {});
    forall c | c in t' && c != 0 && c != r ensures Hangs(t', g', c) {
      assert Hangs(t, g, c);
    }
    if p + 1 < |t[a].exts| {
      assert ExtentOk(g, m, a, t[a].exts[p + 1]);
      assert Covers(t[a].exts[p + 1], k);
    }
  }

  lemma InnerSplitRest(t: Tree, g: Layout, m: map<nat, nat>, a: nat, pos: nat, k: nat, r0: nat, r: nat,
                       blockCap: nat, hollow: nat, k': nat)
    requires a in t && t[a].Inner? && pos < |t[a].ents| && Placed(g, a) && a in g.up && r !in t
    requires a != 0 && r != 0 && r0 != 0 && 0 in t
    requires Depth(t[a]) < Depth(t[0]) && r0 != a
    requires InnerOk(t, g, a, t[a].depth, WithEntry(t[a].ents, pos, k, r0))
    requires RestOk(blockCap, t, g, m, r0, hollow, k') && hollow != r
    requires k in m || k == k'
    ensures RestOk(blockCap, InnerSplit(t, a, pos, k, r0, r, blockCap),
                   SplitLayout(g, a, r, k, MovedChildren(t[a].ents, pos, r0)), m, r, hollow, k')
  {
    var ents, moved := t[a].ents, MovedChildren(t[a].ents, pos, r0);
    var t', g' := InnerSplit(t, a, pos, k, r0, r, blockCap), SplitLayout(g, a, r, k, moved);
    InnerSplitOff(t, g, a, pos, k, r0, r, blockCap);
    forall c | c in t' && c != 0 && c != r ensures Hangs(t', g', c) {
      if c == r0 {
        assert t'[r].ents[0].addr == r0;
        WithEntryAt(ents, pos, k, r0, pos + 1);
        assert ChildOk(t, g, a, t[a].depth, WithEntry(ents, pos, k, r0), pos + 1);
      } else {
        assert Hangs(t, g, c);
        InnerSplitHangs(t, g, a, pos, k, r0, r, blockCap, c);
      }
    }
  }

  lemma InnerSplitHangs(t: Tree, g: Layout, a: nat, pos: nat, k: nat, r0: nat, r: nat, blockCap: nat, c: nat)
    requires a in t && t[a].Inner? && pos < |t[a].ents| && Placed(g, a) && a in g.up && r !in t && 0 in t && a != 0
    requires r != 0
    requires InnerOk(t, g, a, t[a].depth, WithEntry(t[a].ents, pos, k, r0))
    requires SplitOff(t, g, InnerSplit(t, a, pos, k, r0, r, blockCap), a, k, r, MovedChildren(t[a].ents, pos, r0))
    requires Hangs(t, g, c) && c != 0 && c != r && c != r0
    ensures Hangs(InnerSplit(t, a, pos, k, r0, r, blockCap),
                  SplitLayout(g, a, r, k, MovedChildren(t[a].ents, pos, r0)), c)
  {
    var ents, moved := t[a].ents, MovedChildren(t[a].ents, pos, r0);
    var t', g' := InnerSplit(t, a, pos, k, r0, r, blockCap), SplitLayout(g, a, r, k, moved);
    var u := g.up[c];
    var j :| 0 <= j < |t[u].ents| && t[u].ents[j].addr == c;
    if u == a {
      if j <= pos {
        NotMoved(t, g, a, t[a].depth, ents, pos, k, r0, j);
        assert t'[a].ents[j].addr == c;
      } else {
        assert c in moved;
        assert t'[r].ents[j - pos].addr == c;
      }
    } else {
      assert c !in moved;
      assert t'[u].ents[j].addr == c;
    }
  }

  lemma LinkRest(t: Tree, g: Layout, m: map<nat, nat>, q: nat, pos: nat, k: nat, r: nat, blockCap: nat,
                 hollow: nat, k': nat)
    requires q in t && t[q].Inner? && pos < |t[q].ents| < t[q].cap
    requires r in t && r in g.up && g.up[r] == q && 0 in t && Depth(t[r]) < Depth(t[0])
    requires RestOk(blockCap, t, g, m, r, hollow, k')
    ensures RestOk(blockCap, t[q := t[q].(ents := WithEntry(t[q].ents, pos, k, r))], g, m, 0, hollow, k')
  {
    var v := WithEntry(t[q].ents, pos, k, r);
    var t' := t[q := t[q].(ents := v)];
    forall c | c in t' && c != 0 ensures Hangs(t', g, c) {
      if c == r {
        WithEntryAt(t[q].ents, pos, k, r, pos + 1);
        assert t'[q].ents[pos + 1].addr == r;
      } else {
        assert Hangs(t, g, c);
        var u := g.up[c];
        var j :| 0 <= j < |t[u].ents| && t[u].ents[j].addr == c;
        if u == q {
          var i := if j <= pos then j else j + 1;
          WithEntryAt(t[q].ents, pos, k, r, i);
          assert t'[q].ents[i].addr == c;
        }
      }
    }
  }

  // ----- leaves do not overlap -----

  lemma ChildWithin(t: Tree, g: Layout, m: map<nat, nat>, c: nat)
    requires ShapeOk(t, g, m) && Hangs(t, g, c) && Placed(g, c)
    ensures Placed(g, g.up[c]) && g.lo[g.up[c]] <= g.lo[c] && g.hi[c] <= g.hi[g.up[c]]
    ensures Depth(t[g.up[c]]) == Depth(t[c]) + 1
  {
    var u := g.up[c];
    assert NodeOk(t, g, m, u);
    var j :| 0 <= j < |t[u].ents| && t[u].ents[j].addr == c;
    assert ChildOk(t, g, u, t[u].depth, t[u].ents, j);
  }

  /** The children of a node own consecutive, non-overlapping ranges. */
  lemma ChildrenInOrder(t: Tree, g: Layout, a: nat, depth: nat, ents: seq<Index>, i: nat, j: nat)
    requires Placed(g, a) && InnerOk(t, g, a, depth, ents) && i < j < |ents|
    ensures ents[i].addr in g.hi && ents[j].addr in g.lo && g.hi[ents[i].addr] <= g.lo[ents[j].addr]
  {
    assert ChildOk(t, g, a, depth, ents, i);
    assert ChildOk(t, g, a, depth, ents, j);
    assert ents[i + 1].key <= ents[j].key;
  }

  lemma SiblingsApart(t: Tree, g: Layout, m: map<nat, nat>, a: nat, b: nat)
    requires ShapeOk(t, g, m)
    requires Hangs(t, g, a) && Hangs(t, g, b) && g.up[a] == g.up[b] && a != b
    ensures a in g.lo && a in g.hi && b in g.lo && b in g.hi
    ensures g.hi[a] <= g.lo[b] || g.hi[b] <= g.lo[a]
  {
    var u := g.up[a];
    assert NodeOk(t, g, m, u);
    var ents := t[u].ents;
    var i :| 0 <= i < |ents| && ents[i].addr == a;
    var j :| 0 <= j < |ents| && ents[j].addr == b;
    if i < j {
      ChildrenInOrder(t, g, u, t[u].depth, ents, i, j);
    } else {
      ChildrenInOrder(t, g, u, t[u].depth, ents, j, i);
    }
    assert ChildOk(t, g, u, t[u].depth, ents, i);
    assert ChildOk(t, g, u, t[u].depth, ents, j);
  }

  /** Two different nodes of the same depth own disjoint ranges. */
  lemma {:induction false} SameDepthApart(t: Tree, g: Layout, m: map<nat, nat>, a: nat, b: nat)
    requires ShapeOk(t, g, m) && AllHang(t, g, 0)
    requires a in t && b in t && Depth(t[a]) == Depth(t[b]) && a != b
    requires Placed(g, a) && Placed(g, b)
    ensures g.hi[a] <= g.lo[b] || g.hi[b] <= g.lo[a]
    decreases Depth(t[0]) - Depth(t[a])
  {
    assert a != 0 ==> Hangs(t, g, a);
    assert b != 0 ==> Hangs(t, g, b);
    if g.up[a] == g.up[b] {
      SiblingsApart(t, g, m, a, b);
    } else {
      ChildWithin(t, g, m, a);
      ChildWithin(t, g, m, b);
      SameDepthApart(t, g, m, g.up[a], g.up[b]);
    }
  }

  // ----- placing an extent in a leaf -----

  ghost function RangeMap(e: Extent): map<nat, nat> {
    map x | e.first <= x < e.first + e.len :: Phys(e, x)
  }

  /** A leaf with new contents: the map changes inside its range only. */
  lemma LeafChangeOther(t: Tree, g: Layout, m: map<nat, nat>, m': map<nat, nat>, a: nat, exts: seq<Extent>, b: nat)
    requires ShapeOk(t, g, m) && AllHang(t, g, 0)
    requires a in t && t[a].Leaf? && Placed(g, a) && b in t && b != a
    requires forall x :: !(g.lo[a] <= x < g.hi[a]) ==> Get(m, x) == Get(m', x)
    requires (t[a].exts != [] && exts != [] && t[a].exts[0].first == exts[0].first) || a == 0
        || (a in g.up && g.up[a] != b)
    ensures NodeOk(t[a := t[a].(exts := exts)], g, m', b)
  {
    assert NodeOk(t, g, m, b);
    if t[b].Leaf? {
      SameDepthApart(t, g, m, a, b);
    }
    LeafChangeSame(t, g, m, m', a, exts, b);
  }

  lemma LeafChangeSame(t: Tree, g: Layout, m: map<nat, nat>, m': map<nat, nat>, a: nat, exts: seq<Extent>, b: nat)
    requires a in t && t[a].Leaf? && Placed(g, a) && b in t && b != a && NodeOk(t, g, m, b)
    requires t[b].Leaf? ==> forall x :: g.lo[b] <= x < g.hi[b] ==> Get(m, x) == Get(m', x)
    requires (t[a].exts != [] && exts != [] && t[a].exts[0].first == exts[0].first) || a == 0
        || (a in g.up && g.up[a] != b)
    ensures NodeOk(t[a := t[a].(exts := exts)], g, m', b)
  {
    SameNode(t, g, m, t[a := t[a].(exts := exts)], g, m', b);
  }

  /** New leaf contents that start with the same block: no index key has to change. */
  lemma LeafChangeKeeps(t: Tree, g: Layout, m: map<nat, nat>, m': map<nat, nat>, a: nat, exts: seq<Extent>)
    requires ShapeOk(t, g, m) && AllHang(t, g, 0) && MapOk(m')
    requires a in t && t[a].Leaf? && Placed(g, a) && LeafOk(g, m', a, exts)
    requires forall x :: !(g.lo[a] <= x < g.hi[a]) ==> Get(m, x) == Get(m', x)
    requires (t[a].exts != [] && exts != [] && t[a].exts[0].first == exts[0].first) || a == 0
    ensures ShapeOk(t[a := t[a].(exts := exts)], g, m')
  {
    var t' := t[a := t[a].(exts := exts)];
    forall b | b in t' ensures NodeOk(t', g, m', b) {
      if b != a {
        LeafChangeOther(t, g, m, m', a, exts, b);
      }
    }
  }

  lemma LeafChangeParent(t: Tree, g: Layout, a: nat, exts: seq<Extent>, u: nat, depth: nat, up: seq<Index>, pos: nat)
    requires a in t && a != 0 && t[a].Leaf? && Placed(g, a) && exts != []
    requires u != a && Placed(g, u) && InnerOk(t, g, u, depth, up) && pos < |up| && up[pos].addr == a
    requires g.lo[a] <= exts[0].first < g.hi[a]
    requires pos > 0 ==> up[pos].key == exts[0].first
    ensures InnerOk(t[a := t[a].(exts := exts)], g, u, depth, up[pos := Index(exts[0].first, a)])
  {
    var t', x := t[a := t[a].(exts := exts)], exts[0].first;
    var up' := up[pos := Index(x, a)];
    assert ChildOk(t, g, u, depth, up, pos);
    forall j | 0 <= j < |up'| ensures ChildOk(t', g, u, depth, up', j) {
      assert ChildOk(t, g, u, depth, up, j);
      if j < pos {
        ChildrenDiffer(t, g, u, depth, up, j, pos);
      } else if pos < j {
        ChildrenDiffer(t, g, u, depth, up, pos, j);
      }
    }
  }

  /** New leaf contents that start with another block: the entry one level up has to follow. */
  lemma LeafChangeUp(t: Tree, g: Layout, m: map<nat, nat>, m': map<nat, nat>, a: nat, exts: seq<Extent>, u: nat,
                     pos: nat)
    requires ShapeOk(t, g, m) && AllHang(t, g, 0) && MapOk(m')
    requires a in t && a != 0 && t[a].Leaf? && Placed(g, a) && LeafOk(g, m', a, exts) && exts != []
    requires forall x :: !(g.lo[a] <= x < g.hi[a]) ==> Get(m, x) == Get(m', x)
    requires u in t && t[u].Inner? && pos < |t[u].ents| && t[u].ents[pos].addr == a
    requires pos > 0 ==> t[u].ents[pos].key == exts[0].first
    ensures ShapeOkWith(t[a := t[a].(exts := exts)], g, m', u, t[u].ents[pos := Index(exts[0].first, a)])
  {
    var t' := t[a := t[a].(exts := exts)];
    assert NodeOk(t, g, m, u);
    assert ChildOk(t, g, u, t[u].depth, t[u].ents, pos);
    assert ExtentOk(g, m', a, exts[0]);
    LeafChangeParent(t, g, a, exts, u, t[u].depth, t[u].ents, pos);
    forall b | b in t' && b != u ensures NodeOk(t', g, m', b) {
      if b != a {
        LeafChangeOther(t, g, m, m', a, exts, b);
      }
    }
  }
}
