/**
 * Paths through the extent tree: the chain of nodes a search visits, how it survives
 * key repair, and how it is carried through a multi-level split.
 */
module ExtentPath {
  import opened ExtentNodes
  import opened ExtentSteps
  import opened ExtentLeaf

  // ----- paths -----

  /** Nodes of one path are pairwise different. */
  lemma PathDistinct(t: Tree, path: seq<Step>, i: nat, j: nat)
    requires Linked(t, path) && i < j < |path|
    ensures path[i].addr != path[j].addr
  {
    assert LinkedAt(t, path, i) && LinkedAt(t, path, j);
  }

  /** A change away from the path leaves it linked. */
  lemma LinkedSame(t: Tree, t': Tree, path: seq<Step>)
    requires Linked(t, path)
    requires forall i :: 0 <= i < |path| ==> path[i].addr in t' && LinkedAt(t', path, i)
    ensures Linked(t', path)
  {
    assert LinkedAt(t', path, 0) && LinkedAt(t, path, 0);
  }

  /** Key repair writes the entry at the path's position and nothing else. */
  function SetKey(t: Tree, s: Step, x: nat): Tree
    requires s.addr in t && t[s.addr].Inner? && s.pos < |t[s.addr].ents|
  {
    t[s.addr := t[s.addr].(ents := t[s.addr].ents[s.pos := Index(x, t[s.addr].ents[s.pos].addr)])]
  }

  lemma SetKeyLinked(t: Tree, path: seq<Step>, k: nat, x: nat)
    requires Linked(t, path) && k + 1 < |path|
    ensures LinkedAt(t, path, k) && Linked(SetKey(t, path[k], x), path)
  {
    assert LinkedAt(t, path, k);
    var t' := SetKey(t, path[k], x);
    forall i | 0 <= i < |path| ensures LinkedAt(t', path, i) {
      assert LinkedAt(t, path, i);
      if i < k {
        PathDistinct(t, path, i, k);
      } else if k < i {
        PathDistinct(t, path, k, i);
      }
    }
    assert LinkedAt(t', path, 0);
  }

  lemma SetKeyRest(blockCap: nat, t: Tree, g: Layout, m: map<nat, nat>, s: Step, x: nat, hollow: nat, kh: nat)
    requires s.addr in t && t[s.addr].Inner? && s.pos < |t[s.addr].ents| && 0 in t
    requires RestOk(blockCap, t, g, m, 0, hollow, kh)
    ensures RestOk(blockCap, SetKey(t, s, x), g, m, 0, hollow, kh)
  {
    var t' := SetKey(t, s, x);
    forall c | c in t' && c != 0 ensures Hangs(t', g, c) {
      assert Hangs(t, g, c);
      var u := g.up[c];
      var j :| 0 <= j < |t[u].ents| && t[u].ents[j].addr == c;
      assert t'[u].ents[j].addr == c;
    }
  }

  /** The state in which the entry of level `k` still carries an outdated key for its child. */
  ghost predicate KeyPending(t: Tree, g: Layout, m: map<nat, nat>, path: seq<Step>, k: nat, x: nat)
    requires k + 1 < |path| && LinkedAt(t, path, k)
  {
    var ents, s := t[path[k].addr].ents, path[k];
    && x <= ents[s.pos].key
    && ShapeOkWith(t, g, m, s.addr, ents[s.pos := Index(x, path[k + 1].addr)])
  }

  /** One step of key repair that ends it: the repaired entry was not the first one, or it was in the root. */
  lemma RepairEnds(t: Tree, g: Layout, m: map<nat, nat>, path: seq<Step>, k: nat, x: nat)
    requires Linked(t, path) && k + 1 < |path| && LinkedAt(t, path, k) && KeyPending(t, g, m, path, k, x)
    requires path[k].pos != 0 || k == 0
    ensures ShapeOk(SetKey(t, path[k], x), g, m)
  {
    var ents, s := t[path[k].addr].ents, path[k];
    SetEntries(t, g, m, s.addr, ents[s.pos := Index(x, path[k + 1].addr)]);
  }

  /** One step of key repair that has to go on: the first key of the node changed. */
  lemma RepairGoesUp(t: Tree, g: Layout, m: map<nat, nat>, path: seq<Step>, k: nat, x: nat)
    requires Linked(t, path) && 0 < k && k + 1 < |path| && LinkedAt(t, path, k)
    requires KeyPending(t, g, m, path, k, x) && path[k].pos == 0
    ensures LinkedAt(SetKey(t, path[k], x), path, k - 1)
    ensures KeyPending(SetKey(t, path[k], x), g, m, path, k - 1, x)
  {
    var q, u, pos := path[k].addr, path[k - 1].addr, path[k - 1].pos;
    var ents := t[q].ents;
    var ents' := ents[0 := Index(x, path[k + 1].addr)];
    SetKeyLinked(t, path, k, x);
    PathDistinct(t, path, k - 1, k);
    assert LinkedAt(t, path, k - 1);
    assert LinkedAt(SetKey(t, path[k], x), path, k - 1);
    assert NodeOk(t, g, m, u);
    assert ChildOk(t, g, u, t[u].depth, t[u].ents, pos);
    KeyRepairUp(t, g, m, q, ents', u, pos);
  }

  /** Level `k` has been repaired; what is left to do depends on whether its first key changed. */
  ghost predicate Repaired(blockCap: nat, t: Tree, g: Layout, m: map<nat, nat>, path: seq<Step>, k: nat, x: nat) {
    && k + 1 < |path| && Linked(t, path)
    && RestOk(blockCap, t, g, m, 0, 0, EXT_MAX_BLOCKS)
    && (if path[k].pos != 0 || k == 0 then ShapeOk(t, g, m)
        else LinkedAt(t, path, k - 1) && KeyPending(t, g, m, path, k - 1, x))
  }

  lemma RepairStep(blockCap: nat, t: Tree, g: Layout, m: map<nat, nat>, path: seq<Step>, k: nat, x: nat)
    requires Linked(t, path) && k + 1 < |path| && LinkedAt(t, path, k) && KeyPending(t, g, m, path, k, x)
    requires RestOk(blockCap, t, g, m, 0, 0, EXT_MAX_BLOCKS)
    ensures SetKey(t, path[k], x).Keys == t.Keys
    ensures Repaired(blockCap, SetKey(t, path[k], x), g, m, path, k, x)
  {
    SetKeyLinked(t, path, k, x);
    SetKeyRest(blockCap, t, g, m, path[k], x, 0, EXT_MAX_BLOCKS);
    if path[k].pos != 0 || k == 0 {
      RepairEnds(t, g, m, path, k, x);
    } else {
      RepairGoesUp(t, g, m, path, k, x);
    }
  }

  // ----- the path during a split -----

  /** New right-hand nodes for the levels below `i`, one under the other, all starting at `k`. */
  ghost predicate RightSide(t: Tree, g: Layout, rs: seq<nat>, k: nat, y: nat) {
    && rs != []
    && (forall j :: 0 <= j < |rs| ==> RightAt(t, g, rs, k, y, j))
  }

  ghost predicate RightAt(t: Tree, g: Layout, rs: seq<nat>, k: nat, y: nat, j: nat)
    requires j < |rs|
  {
    var r := rs[j];
    && r in t && Placed(g, r) && g.lo[r] == k && y <= g.hi[r]
    && Depth(t[r]) == |rs| - 1 - j
    && (j + 1 < |rs| ==> t[r].Inner? && t[r].ents != [] && t[r].ents[0].addr == rs[j + 1])
    && (j + 1 == |rs| ==> t[r].Leaf?)
  }

  /** Levels up to `i` still own [x, y); the levels below end at `k` now. */
  ghost predicate LeftSide(g: Layout, path: seq<Step>, i: nat, k: nat, x: nat, y: nat) {
    forall j :: 0 <= j < |path| ==>
      && Placed(g, path[j].addr) && g.lo[path[j].addr] <= x
      && (if j <= i then y <= g.hi[path[j].addr] else g.hi[path[j].addr] == k)
  }

  /** The split has been carried out for all levels below `i`; `rs[0]` waits to be linked at level `i`. */
  ghost predicate SplitBelow(t: Tree, g: Layout, path: seq<Step>, i: nat, rs: seq<nat>, k: nat, x: nat, y: nat) {
    && Linked(t, path)
    && i + 1 < |path| && |rs| == |path| - 1 - i
    && LeftSide(g, path, i, k, x, y)
    && RightSide(t, g, rs, k, y)
    && (forall j, n :: 0 <= j < |path| && 0 <= n < |rs| ==> path[j].addr != rs[n])
  }

  lemma SplitBelowLeaf(t: Tree, g: Layout, path: seq<Step>, p: nat, r: nat, blockCap: nat, k: nat, x: nat, y: nat)
    requires PathOk(t, g, path, x, y) && |path| > 1
    requires var a := path[|path| - 1].addr;
      a in t && t[a].Leaf? && a in g.up && p < |t[a].exts| && r !in t && r != 0
      && g.lo[a] < k < g.hi[a]
    ensures var a := path[|path| - 1].addr;
      SplitBelow(LeafSplit(t, a, p, r, blockCap), SplitLayout(g, a, r, k, {}), path, |path| - 2, [r], k, x, y)
  {
    var a := path[|path| - 1].addr;
    var t', g' := LeafSplit(t, a, p, r, blockCap), SplitLayout(g, a, r, k, {});
    forall j | 0 <= j < |path| ensures LinkedAt(t', path, j) && path[j].addr in t &&
        (j < |path| - 1 ==> path[j].addr != a) {
      assert LinkedAt(t, path, j);
      if j < |path| - 1 {
        PathDistinct(t, path, j, |path| - 1);
      }
    }
    assert LinkedAt(t', path, 0);
    assert RightAt(t', g', [r], k, y, 0);
  }

  lemma InnerSplitLinked(t: Tree, path: seq<Step>, i: nat, k: nat, r0: nat, r: nat, blockCap: nat)
    requires Linked(t, path) && i + 1 < |path| && LinkedAt(t, path, i)
    requires r !in t && r != 0
    ensures Linked(InnerSplit(t, path[i].addr, path[i].pos, k, r0, r, blockCap), path)
  {
    var t' := InnerSplit(t, path[i].addr, path[i].pos, k, r0, r, blockCap);
    forall j | 0 <= j < |path| ensures LinkedAt(t', path, j) {
      assert LinkedAt(t, path, j);
      if j < i {
        PathDistinct(t, path, j, i);
      } else if i < j {
        PathDistinct(t, path, i, j);
      }
    }
    assert LinkedAt(t', path, 0);
  }

  lemma InnerSplitRightAt(t: Tree, g: Layout, a: nat, pos: nat, rs: seq<nat>, r: nat, blockCap: nat,
                          k: nat, y: nat, j: nat)
    requires a in t && t[a].Inner? && pos < |t[a].ents| && Placed(g, a) && a in g.up && r !in t
    requires rs != [] && k < g.hi[a] && y <= g.hi[a] && Depth(t[a]) == |rs|
    requires j > 0 ==> j <= |rs| && RightAt(t, g, rs, k, y, j - 1) && rs[j - 1] != a && rs[j - 1] != r
    ensures RightAt(InnerSplit(t, a, pos, k, rs[0], r, blockCap),
                    SplitLayout(g, a, r, k, MovedChildren(t[a].ents, pos, rs[0])), [r] + rs, k, y, j)
  {
    var rs' := [r] + rs;
    if j > 0 {
      assert rs'[j] == rs[j - 1];
      assert j + 1 < |rs'| ==> rs'[j + 1] == rs[j];
    } else {
      assert rs'[1] == rs[0];
    }
  }

  lemma SplitBelowInner(t: Tree, g: Layout, path: seq<Step>, i: nat, rs: seq<nat>, r: nat, blockCap: nat,
                        k: nat, x: nat, y: nat)
    requires SplitBelow(t, g, path, i, rs, k, x, y) && 0 < i && LinkedAt(t, path, i)
    requires r !in t && r != 0
    requires var a := path[i].addr; a in g.up && a in g.lo && a in g.hi && g.lo[a] < k < g.hi[a]
    ensures var a := path[i].addr;
      SplitBelow(InnerSplit(t, a, path[i].pos, k, rs[0], r, blockCap),
                 SplitLayout(g, a, r, k, MovedChildren(t[a].ents, path[i].pos, rs[0])),
                 path, i - 1, [r] + rs, k, x, y)
  {
    var a, pos, rs' := path[i].addr, path[i].pos, [r] + rs;
    var t' := InnerSplit(t, a, pos, k, rs[0], r, blockCap);
    var g' := SplitLayout(g, a, r, k, MovedChildren(t[a].ents, pos, rs[0]));
    InnerSplitLinked(t, path, i, k, rs[0], r, blockCap);
    forall j | 0 <= j < |path| ensures path[j].addr in t && (j != i ==> path[j].addr != a) {
      assert LinkedAt(t, path, j);
    }
    forall j | 0 <= j < |rs'| ensures RightAt(t', g', rs', k, y, j) {
      if j > 0 {
        assert RightAt(t, g, rs, k, y, j - 1);
      }
      InnerSplitRightAt(t, g, a, pos, rs, r, blockCap, k, y, j);
    }
  }

  function RightPath(path: seq<Step>, i: nat, rs: seq<nat>): seq<Step>
    requires i < |path|
  {
    path[..i] + [Step(path[i].addr, path[i].pos + 1)] + seq(|rs|, j requires 0 <= j < |rs| => Step(rs[j], 0))
  }

  /** After linking, the path continues on the left when the block lies below `k`. */
  lemma LinkedLeft(t: Tree, g: Layout, path: seq<Step>, i: nat, rs: seq<nat>, k: nat, x: nat, y: nat)
    requires SplitBelow(t, g, path, i, rs, k, x, y) && LinkedAt(t, path, i) && x < y <= k
    ensures var t' := t[path[i].addr := t[path[i].addr].(ents := WithEntry(t[path[i].addr].ents, path[i].pos, k,
      rs[0]))];
      Linked(t', path) && InRange(g, path, x, y)
  {
    var q := path[i].addr;
    var t' := t[q := t[q].(ents := WithEntry(t[q].ents, path[i].pos, k, rs[0]))];
    forall j | 0 <= j < |path| ensures LinkedAt(t', path, j) {
      assert LinkedAt(t, path, j);
      if j < i {
        PathDistinct(t, path, j, i);
      } else if i < j {
        PathDistinct(t, path, i, j);
      } else {
        WithEntryAt(t[q].ents, path[i].pos, k, rs[0], path[i].pos);
      }
    }
    assert LinkedAt(t', path, 0);
  }

  /** Otherwise it moves to the new nodes. */
  lemma LinkedRight(t: Tree, g: Layout, path: seq<Step>, i: nat, rs: seq<nat>, k: nat, x: nat, y: nat)
    requires SplitBelow(t, g, path, i, rs, k, x, y) && LinkedAt(t, path, i) && k <= x < y
    ensures var t' := t[path[i].addr := t[path[i].addr].(ents := WithEntry(t[path[i].addr].ents, path[i].pos, k,
      rs[0]))];
      Linked(t', RightPath(path, i, rs)) && InRange(g, RightPath(path, i, rs), x, y)
  {
    var q := path[i].addr;
    var t' := t[q := t[q].(ents := WithEntry(t[q].ents, path[i].pos, k, rs[0]))];
    var path' := RightPath(path, i, rs);
    WithEntryAt(t[q].ents, path[i].pos, k, rs[0], path[i].pos + 1);
    forall j | 0 <= j < |path'|
      ensures LinkedAt(t', path', j)
      ensures Placed(g, path'[j].addr) && g.lo[path'[j].addr] <= x < y <= g.hi[path'[j].addr]
    {
      if j < i {
        assert LinkedAt(t, path, j);
        PathDistinct(t, path, j, i);
        assert path'[j] == path[j] && path'[j + 1].addr == path[j + 1].addr;
      } else if j == i {
        assert path'[j] == Step(q, path[i].pos + 1) && path'[j + 1].addr == rs[0];
      } else {
        var n := j - i - 1;
        assert path'[j] == Step(rs[n], 0);
        assert RightAt(t, g, rs, k, y, n);
        assert j + 1 < |path'| ==> path'[j + 1] == Step(rs[n + 1], 0);
      }
    }
    assert LinkedAt(t', path', 0);
    assert LinkedAt(t, path, 0);
  }

  // ----- new contents for the leaf at the end of the path -----

  function SetLeaf(t: Tree, a: nat, exts: seq<Extent>): Tree
    requires a in t && t[a].Leaf?
  {
    t[a := t[a].(exts := exts)]
  }

  lemma SetLeafLinked(t: Tree, path: seq<Step>, exts: seq<Extent>)
    requires Linked(t, path) && LinkedAt(t, path, |path| - 1)
    ensures Linked(SetLeaf(t, path[|path| - 1].addr, exts), path)
  {
    var a := path[|path| - 1].addr;
    var t' := SetLeaf(t, a, exts);
    forall i | 0 <= i < |path| ensures LinkedAt(t', path, i) {
      assert LinkedAt(t, path, i);
      if i < |path| - 1 {
        PathDistinct(t, path, i, |path| - 1);
      }
    }
    assert LinkedAt(t', path, 0);
  }

  /** `hollow` and `kh` describe what a split has left behind for the new extent. */
  ghost predicate HollowOk(t: Tree, g: Layout, a: nat, hollow: nat, kh: nat, x: nat)
    requires a in t && t[a].Leaf? && Placed(g, a)
  {
    || (hollow == 0 && kh == EXT_MAX_BLOCKS && (t[a].exts == [] ==> a == 0))
    || (hollow == a && kh == x == g.lo[a] && t[a].exts == [])
  }

  lemma PlacedRest(blockCap: nat, t: Tree, g: Layout, m: map<nat, nat>, a: nat, exts: seq<Extent>, e: Extent,
                   hollow: nat, kh: nat)
    requires a in t && t[a].Leaf? && Placed(g, a) && RestOk(blockCap, t, g, m, 0, hollow, kh) && 0 in t
    requires HollowOk(t, g, a, hollow, kh, e.first)
    requires exts != [] && |exts| <= t[a].cap && e.len >= 1
    ensures RestOk(blockCap, SetLeaf(t, a, exts), g, m + RangeMap(e), 0, 0, EXT_MAX_BLOCKS)
  {
    var t' := SetLeaf(t, a, exts);
    forall c | c in t' && c != 0 ensures Hangs(t', g, c) {
      assert Hangs(t, g, c);
      var u := g.up[c];
      var j :| 0 <= j < |t[u].ents| && t[u].ents[j].addr == c;
      assert t'[u].ents[j].addr == c;
    }
  }

  lemma MapExtended(g: Layout, m: map<nat, nat>, path: seq<Step>, e: Extent)
    requires path != [] && MapOk(m) && InRange(g, path, e.first, e.first + e.len)
    ensures var a, m' := path[|path| - 1].addr, m + RangeMap(e);
      MapOk(m') && a in g.lo && a in g.hi && forall x :: !(g.lo[a] <= x < g.hi[a]) ==> Get(m, x) == Get(m', x)
  {
    var a, m' := path[|path| - 1].addr, m + RangeMap(e);
    forall x | x in m' ensures x < EXT_MAX_BLOCKS {
      assert x !in m ==> x < e.first + e.len <= g.hi[a];
    }
  }

  /** Changing the leaf: in order at once, or once the entry above has been given the new first key. */
  lemma LeafPlaced(t: Tree, g: Layout, m: map<nat, nat>, path: seq<Step>, e: Extent, exts: seq<Extent>,
                   hollow: nat, kh: nat)
    requires ShapeOk(t, g, m) && AllHang(t, g, 0)
    requires PathOk(t, g, path, e.first, e.first + e.len)
    requires var a := path[|path| - 1].addr;
      && LeafOk(g, m + RangeMap(e), a, exts) && exts != []
      && HollowOk(t, g, a, hollow, kh, e.first)
      && (t[a].exts != [] ==> exts[0].first == t[a].exts[0].first || exts[0].first == e.first < t[a].exts[0].first)
      && (t[a].exts == [] ==> exts[0].first == e.first)
    ensures var t' := SetLeaf(t, path[|path| - 1].addr, exts);
      var m' := m + RangeMap(e);
      && Linked(t', path)
      && (|path| > 1 ==> LinkedAt(t', path, |path| - 2) && KeyPending(t', g, m', path, |path| - 2, exts[0].first))
      && (|path| == 1 || (t[path[|path| - 1].addr].exts != [] &&
          exts[0].first == t[path[|path| - 1].addr].exts[0].first)
          ==> ShapeOk(t', g, m'))
  {
    var a := path[|path| - 1].addr;
    var t', m' := SetLeaf(t, a, exts), m + RangeMap(e);
    SetLeafLinked(t, path, exts);
    MapExtended(g, m, path, e);
    if |path| == 1 || (t[a].exts != [] && exts[0].first == t[a].exts[0].first) {
      LeafChangeKeeps(t, g, m, m', a, exts);
    }
    if |path| > 1 {
      var u, pos := path[|path| - 2].addr, path[|path| - 2].pos;
      assert LinkedAt(t, path, |path| - 2);
      assert LinkedAt(t', path, |path| - 2);
      PathDistinct(t, path, 0, |path| - 1);
      assert NodeOk(t, g, m, u);
      assert ChildOk(t, g, u, t[u].depth, t[u].ents, pos);
      LeafChangeUp(t, g, m, m', a, exts, u, pos);
      PathDistinct(t, path, |path| - 2, |path| - 1);
      LeafKeyLow(t, g, a, exts[0].first, hollow, kh, e.first, u, pos);
    }
  }

  /** The leaf's first block is never above the key its parent holds for it. */
  lemma LeafKeyLow(t: Tree, g: Layout, a: nat, f: nat, hollow: nat, kh: nat, x: nat, u: nat, pos: nat)
    requires a in t && a != 0 && t[a].Leaf? && Placed(g, a) && HollowOk(t, g, a, hollow, kh, x)
    requires Placed(g, u) && u in t && t[u].Inner? && InnerOk(t, g, u, t[u].depth, t[u].ents)
    requires pos < |t[u].ents| && t[u].ents[pos].addr == a
    requires t[a].exts != [] ==> f <= t[a].exts[0].first
    requires t[a].exts == [] ==> f == x
    ensures f <= t[u].ents[pos].key
  {
    assert ChildOk(t, g, u, t[u].depth, t[u].ents, pos);
  }

  /** What the search guarantees about the extent found and the new, disjoint one. */
  lemma SlotFacts(t: Tree, g: Layout, m: map<nat, nat>, path: seq<Step>, e: Extent)
    requires ShapeOk(t, g, m) && PathOk(t, g, path, e.first, e.first + e.len)
    requires Fits(g, m, path[|path| - 1].addr, e)
    ensures var a, p := path[|path| - 1].addr, path[|path| - 1].pos;
      && LeafOk(g, m, a, t[a].exts)
      && (t[a].exts != [] ==>
            && p < |t[a].exts| && e.first != t[a].exts[p].first
            && (p > 0 ==> t[a].exts[p].first < e.first)
            && (p > 0 ==> t[a].exts[0].first < e.first)
            && (p + 1 < |t[a].exts| ==> e.first < t[a].exts[p + 1].first))
  {
    var a, p := path[|path| - 1].addr, path[|path| - 1].pos;
    assert NodeOk(t, g, m, a);
    var exts := t[a].exts;
    if exts != [] {
      assert ExtentOk(g, m, a, exts[p]);
      assert Covers(exts[p], exts[p].first) && Covers(e, e.first);
      assert ExtentOk(g, m, a, exts[0]);
      assert p > 0 ==> exts[0].first + exts[0].len <= exts[p].first;
    }
  }

  lemma RoomFacts(blockCap: nat, t: Tree, g: Layout, m: map<nat, nat>, a: nat, hollow: nat, kh: nat)
    requires a in t && RestOk(blockCap, t, g, m, 0, hollow, kh)
    ensures t[a].cap == if a == 0 then ROOT_CAP else blockCap
    ensures (if t[a].Leaf? then |t[a].exts| else |t[a].ents|) <= t[a].cap
  {
  }

  lemma AppendInLeaf(blockCap: nat, t: Tree, g: Layout, m: map<nat, nat>, path: seq<Step>, e: Extent,
                     hollow: nat, kh: nat)
    requires ShapeOk(t, g, m) && RestOk(blockCap, t, g, m, 0, hollow, kh)
    requires PathOk(t, g, path, e.first, e.first + e.len)
    requires var a, p := path[|path| - 1].addr, path[|path| - 1].pos;
      && HollowOk(t, g, a, hollow, kh, e.first) && Fits(g, m, a, e)
      && p < |t[a].exts| && CanAppend(t[a].exts[p], e)
    ensures var a, p := path[|path| - 1].addr, path[|path| - 1].pos;
      TreeOk(blockCap, SetLeaf(t, a, Appended(t[a].exts, p, e)), g, m + RangeMap(e))
  {
    var a, p := path[|path| - 1].addr, path[|path| - 1].pos;
    SlotFacts(t, g, m, path, e);
    hide ShapeOk;
    AppendKeeps(g, m, a, t[a].exts, p, e);
    LeafPlaced(t, g, m, path, e, Appended(t[a].exts, p, e), hollow, kh);
    PlacedRest(blockCap, t, g, m, a, Appended(t[a].exts, p, e), e, hollow, kh);
  }

  lemma InsertInLeaf(blockCap: nat, t: Tree, g: Layout, m: map<nat, nat>, path: seq<Step>, e: Extent, at: nat,
                     hollow: nat, kh: nat)
    requires ShapeOk(t, g, m) && RestOk(blockCap, t, g, m, 0, hollow, kh)
    requires PathOk(t, g, path, e.first, e.first + e.len)
    requires var a, p := path[|path| - 1].addr, path[|path| - 1].pos;
      && HollowOk(t, g, a, hollow, kh, e.first) && Fits(g, m, a, e)
      && |t[a].exts| < t[a].cap
      && at == (if t[a].exts == [] then 0 else if e.first > t[a].exts[p].first then p + 1 else p)
    ensures var a, p := path[|path| - 1].addr, path[|path| - 1].pos;
      at <= |t[a].exts| &&
      var t', m' := SetLeaf(t, a, InsertExt(t[a].exts, at, e)), m + RangeMap(e);
      && Linked(t', path)
      && RestOk(blockCap, t', g, m', 0, 0, EXT_MAX_BLOCKS)
      && (|path| > 1 && (t[a].exts == [] || p == 0) ==>
            LinkedAt(t', path, |path| - 2) && KeyPending(t', g, m', path, |path| - 2, t'[a].exts[0].first))
      && (|path| == 1 || (t[a].exts != [] && p != 0) ==> ShapeOk(t', g, m'))
  {
    var a, p := path[|path| - 1].addr, path[|path| - 1].pos;
    SlotFacts(t, g, m, path, e);
    hide ShapeOk;
    InsertExtKeeps(g, m, a, t[a].exts, at, e);
    InsertExtAt(t[a].exts, at, e, 0);
    LeafPlaced(t, g, m, path, e, InsertExt(t[a].exts, at, e), hollow, kh);
    PlacedRest(blockCap, t, g, m, a, InsertExt(t[a].exts, at, e), e, hollow, kh);
  }
}
