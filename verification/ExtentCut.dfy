/**
 * What truncation from block `from` to the end of the file leaves of each node, and why
 * the result is again a well-formed tree that maps exactly the blocks below `from`.
 */
module ExtentCut {
  import opened ExtentNodes
  import opened ExtentSteps

  /** How many leading entries of an index node start below `from`. */
  function KeepCount(ents: seq<Index>, from: nat): (n: nat)
    ensures n <= |ents|
  {
    if ents == [] || ents[0].key >= from then 0 else 1 + KeepCount(ents[1..], from)
  }

  lemma {:induction false} KeepCountIs(ents: seq<Index>, from: nat, j: nat)
    requires SortedKeys(ents) && j < |ents|
    ensures j < KeepCount(ents, from) <==> ents[j].key < from
  {
    if ents[0].key < from {
      if j > 0 {
        var rest := ents[1..];
        assert SortedKeys(rest);
        KeepCountIs(rest, from, j - 1);
      }
    } else {
      assert j > 0 ==> ents[0].key < ents[j].key;
    }
  }

  function Trim(e: Extent, from: nat): Extent
    requires e.first < from
  {
    if e.first + e.len <= from then e else Extent(e.first, from - e.first, e.start)
  }

  /** The extents of a leaf that start below `from`, the last one shortened. */
  function CutLeaf(exts: seq<Extent>, from: nat): seq<Extent> {
    if exts == [] then []
    else if exts[|exts| - 1].first >= from then CutLeaf(exts[..|exts| - 1], from)
    else exts[..|exts| - 1] + [Trim(exts[|exts| - 1], from)]
  }

  function Cut(n: Node, from: nat): Node {
    match n
    case Leaf(cap, exts) => Leaf(cap, CutLeaf(exts, from))
    case Inner(depth, cap, ents) => Inner(depth, cap, ents[..KeepCount(ents, from)])
  }

  predicate Keep(t: Tree, a: nat, from: nat)
    requires a in t
  {
    a == 0 || (HasKey(t[a]) && FirstKey(t[a]) < from)
  }

  /** The extents before `p` stay as they are, the one at `p` is shortened or dropped, and all behind it are dropped. */
  lemma {:induction false} CutLeafIs(exts: seq<Extent>, p: nat, from: nat)
    requires p <= |exts|
    requires forall i :: p < i < |exts| ==> from <= exts[i].first
    requires p > 0 ==> exts[p - 1].first < from && exts[p - 1].first + exts[p - 1].len <= from
    ensures CutLeaf(exts, from) ==
      exts[..p] + if p < |exts| && exts[p].first < from then [Trim(exts[p], from)] else []
  {
    if exts == [] {
    } else if exts[|exts| - 1].first >= from {
      if p < |exts| {
        CutLeafIs(exts[..|exts| - 1], p, from);
        assert exts[..|exts| - 1][..p] == exts[..p];
      }
    } else {
      if p == |exts| {
        assert exts[..|exts| - 1] + [exts[|exts| - 1]] == exts;
      }
    }
  }

  ghost function Below(m: map<nat, nat>, from: nat): map<nat, nat> {
    map x | x in m && x < from :: m[x]
  }

  ghost function CutLayout(g: Layout, from: nat): Layout {
    g.(hi := map a | a in g.hi :: if g.hi[a] >= from then EXT_MAX_BLOCKS else g.hi[a])
  }

  /** The nodes that survive, cut, before the root is looked at once more. */
  ghost predicate CutTree(t: Tree, from: nat, t': Tree) {
    && (forall a :: a in t' <==> a in t && Keep(t, a, from))
    && (forall a :: a in t' ==> t'[a] == Cut(t[a], from))
  }

  /** A root without entries is turned back into an empty leaf. */
  function ResetRoot(t: Tree): Tree
    requires 0 in t
  {
    if HasKey(t[0]) then t else t[0 := Leaf(ROOT_CAP, [])]
  }

  // ----- leaves -----

  lemma {:induction false} CutLeafAt(exts: seq<Extent>, from: nat, i: nat)
    requires Sorted(exts) && i < |exts|
    requires forall i :: 0 <= i < |exts| ==> exts[i].len >= 1
    ensures exts[i].first < from <==> i < |CutLeaf(exts, from)|
    ensures exts[i].first < from ==> CutLeaf(exts, from)[i] == Trim(exts[i], from)
    ensures |CutLeaf(exts, from)| <= |exts|
  {
    var n := |exts| - 1;
    if exts[n].first >= from {
      if i < n {
        CutLeafAt(exts[..n], from, i);
      } else if n > 0 {
        CutLeafAt(exts[..n], from, n - 1);
      }
    } else {
      assert i < n ==> exts[i].first + exts[i].len <= exts[n].first;
    }
  }

  lemma CutLeafAll(g: Layout, m: map<nat, nat>, a: nat, exts: seq<Extent>, from: nat, i: nat)
    requires Placed(g, a) && LeafOk(g, m, a, exts) && i < |exts|
    ensures exts[i].first < from <==> i < |CutLeaf(exts, from)|
    ensures exts[i].first < from ==> CutLeaf(exts, from)[i] == Trim(exts[i], from)
    ensures |CutLeaf(exts, from)| <= |exts|
  {
    forall i | 0 <= i < |exts| ensures exts[i].len >= 1 {
      assert ExtentOk(g, m, a, exts[i]);
    }
    CutLeafAt(exts, from, i);
  }

  lemma CutCovers(g: Layout, m: map<nat, nat>, a: nat, exts: seq<Extent>, from: nat, x: nat)
    requires Placed(g, a) && LeafOk(g, m, a, exts)
    requires x in m && g.lo[a] <= x < g.hi[a] && x < from
    ensures CoveredBy(CutLeaf(exts, from), x)
  {
    assert CoveredBy(exts, x);
    var i :| 0 <= i < |exts| && Covers(exts[i], x);
    CutLeafAll(g, m, a, exts, from, i);
    assert Covers(CutLeaf(exts, from)[i], x);
  }

  lemma CutLeafOk(g: Layout, m: map<nat, nat>, a: nat, exts: seq<Extent>, from: nat)
    requires Placed(g, a) && LeafOk(g, m, a, exts)
    ensures Placed(CutLayout(g, from), a)
    ensures LeafOk(CutLayout(g, from), Below(m, from), a, CutLeaf(exts, from))
  {
    var g', m', v := CutLayout(g, from), Below(m, from), CutLeaf(exts, from);
    CutLeafSmaller(exts, from);
    forall i | 0 <= i < |v| ensures exts[i].first < from && v[i] == Trim(exts[i], from) {
      CutLeafAll(g, m, a, exts, from, i);
    }
    forall i | 0 <= i < |v| ensures ExtentOk(g', m', a, v[i]) {
      assert ExtentOk(g, m, a, exts[i]);
      CutExtentOk(g, m, a, exts[i], from);
    }
    forall x | x in m' && g'.lo[a] <= x < g'.hi[a] ensures CoveredBy(v, x) {
      CutCovers(g, m, a, exts, from, x);
    }
  }

  lemma CutExtentOk(g: Layout, m: map<nat, nat>, a: nat, e: Extent, from: nat)
    requires Placed(g, a) && ExtentOk(g, m, a, e) && e.first < from
    ensures Placed(CutLayout(g, from), a) && ExtentOk(CutLayout(g, from), Below(m, from), a, Trim(e, from))
  {
    var e', m' := Trim(e, from), Below(m, from);
    forall x | Covers(e', x) ensures x in m' && m'[x] == Phys(e', x) {
      assert Covers(e, x);
    }
  }

  // ----- index nodes -----

  lemma CutChildOk(t: Tree, g: Layout, m: map<nat, nat>, from: nat, t': Tree, a: nat, depth: nat, ents: seq<Index>,
                   j: nat)
    requires CutTree(t, from, t') && Placed(g, a) && InnerOk(t, g, a, depth, ents)
    requires j < KeepCount(ents, from)
    requires ents[j].addr in t && HasKey(t[ents[j].addr]) && NodeOk(t, g, m, ents[j].addr)
    ensures Placed(CutLayout(g, from), a)
    ensures ChildOk(t', CutLayout(g, from), a, depth, ents[..KeepCount(ents, from)], j)
  {
    var n, c := KeepCount(ents, from), ents[j].addr;
    assert ChildOk(t, g, a, depth, ents, j);
    KeepCountIs(ents, from, j);
    if j + 1 < |ents| {
      KeepCountIs(ents, from, j + 1);
    }
    assert ents[j].key <= ents[|ents| - 1].key;
    assert Keep(t, c, from) && c in t';
    CutFirstKey(t, g, m, c, from);
  }

  lemma CutFirstKey(t: Tree, g: Layout, m: map<nat, nat>, a: nat, from: nat)
    requires a in t && NodeOk(t, g, m, a) && HasKey(t[a]) && FirstKey(t[a]) < from
    ensures HasKey(Cut(t[a], from)) && FirstKey(Cut(t[a], from)) == FirstKey(t[a])
    ensures Depth(Cut(t[a], from)) == Depth(t[a])
  {
    match t[a] {
      case Leaf(_, exts) =>
        forall i | 0 <= i < |exts| ensures exts[i].len >= 1 {
          assert ExtentOk(g, m, a, exts[i]);
        }
        CutLeafAt(exts, from, 0);
      case Inner(_, _, ents) => KeepCountIs(ents, from, 0);
    }
  }

  lemma CutInnerOk(t: Tree, g: Layout, m: map<nat, nat>, from: nat, t': Tree, a: nat)
    requires ShapeOk(t, g, m) && NonEmpty(t, 0) && CutTree(t, from, t')
    requires a in t && t[a].Inner? && HasKey(Cut(t[a], from))
    requires a in t'
    ensures NodeOk(t', CutLayout(g, from), Below(m, from), a)
  {
    assert NodeOk(t, g, m, a);
    var depth, ents := t[a].depth, t[a].ents;
    var v := ents[..KeepCount(ents, from)];
    KeepCountIs(ents, from, 0);
    KeepCountIs(ents, from, |v| - 1);
    assert ents[|v| - 1].key <= ents[|ents| - 1].key;
    forall j | 0 <= j < |v| ensures ChildOk(t', CutLayout(g, from), a, depth, v, j) {
      assert ChildOk(t, g, a, depth, ents, j);
      assert NodeOk(t, g, m, ents[j].addr);
      CutChildOk(t, g, m, from, t', a, depth, ents, j);
    }
  }

  // ----- the root -----

  /** No mapped block lies before the first key of the node responsible for it. */
  lemma {:induction false} MappedAbove(t: Tree, g: Layout, m: map<nat, nat>, a: nat, x: nat)
    requires ShapeOk(t, g, m) && NonEmpty(t, 0)
    requires a in t && Placed(g, a) && g.lo[a] <= x < g.hi[a] && x in m
    ensures HasKey(t[a]) && FirstKey(t[a]) <= x
    decreases Depth(t[a])
  {
    assert NodeOk(t, g, m, a);
    match t[a] {
      case Leaf(_, exts) =>
        assert CoveredBy(exts, x);
        var i :| 0 <= i < |exts| && Covers(exts[i], x);
        assert ExtentOk(g, m, a, exts[0]);
        assert i > 0 ==> exts[0].first + exts[0].len <= exts[i].first;
      case Inner(depth, _, ents) =>
        IndexSlotIs(ents, x);
        var j := IndexSlot(ents, x);
        assert ChildOk(t, g, a, depth, ents, j);
        MappedAbove(t, g, m, ents[j].addr, x);
        assert ents[0].key <= ents[j].key;
    }
  }

  /** No node starts before the root does. */
  lemma {:induction false} RootFirst(t: Tree, g: Layout, m: map<nat, nat>, c: nat)
    requires ShapeOk(t, g, m) && NonEmpty(t, 0) && AllHang(t, g, 0)
    requires c in t && c != 0
    ensures HasKey(t[0]) && HasKey(t[c]) && FirstKey(t[0]) <= FirstKey(t[c])
    decreases Depth(t[0]) - Depth(t[c])
  {
    assert Hangs(t, g, c);
    var u := g.up[c];
    assert NodeOk(t, g, m, u);
    var j :| 0 <= j < |t[u].ents| && t[u].ents[j].addr == c;
    assert ChildOk(t, g, u, t[u].depth, t[u].ents, j);
    assert t[u].ents[0].key <= t[u].ents[j].key;
    if u != 0 {
      RootFirst(t, g, m, u);
    }
  }

  lemma CutRootLeaf(t: Tree, g: Layout, m: map<nat, nat>, from: nat, t': Tree)
    requires ShapeOk(t, g, m) && NonEmpty(t, 0) && AllHang(t, g, 0) && CutTree(t, from, t')
    requires !HasKey(Cut(t[0], from))
    ensures t'.Keys == {0}
    ensures Below(m, from) == map[]
  {
    assert NodeOk(t, g, m, 0);
    assert HasKey(t[0]) ==> FirstKey(t[0]) >= from by {
      if HasKey(t[0]) && FirstKey(t[0]) < from {
        CutFirstKey(t, g, m, 0, from);
      }
    }
    forall a | a in t' ensures a == 0 {
      if a != 0 {
        RootFirst(t, g, m, a);
      }
    }
    forall x | x in m ensures x >= from {
      MappedAbove(t, g, m, 0, x);
    }
  }

  lemma CutShape(t: Tree, g: Layout, m: map<nat, nat>, from: nat, t': Tree)
    requires ShapeOk(t, g, m) && NonEmpty(t, 0) && AllHang(t, g, 0) && CutTree(t, from, t')
    ensures ShapeOk(ResetRoot(t'), CutLayout(g, from), Below(m, from))
  {
    var g', m' := CutLayout(g, from), Below(m, from);
    if HasKey(t'[0]) {
      forall a | a in t' ensures NodeOk(t', g', m', a) {
        assert NodeOk(t, g, m, a);
        if t[a].Leaf? {
          CutLeafOk(g, m, a, t[a].exts, from);
        } else {
          if a != 0 {
            CutFirstKey(t, g, m, a, from);
          }
          CutInnerOk(t, g, m, from, t', a);
        }
      }
    } else {
      CutRootLeaf(t, g, m, from, t');
      assert NodeOk(ResetRoot(t'), g', m', 0);
    }
  }

  lemma CutHangs(t: Tree, g: Layout, m: map<nat, nat>, from: nat, t': Tree, c: nat)
    requires ShapeOk(t, g, m) && NonEmpty(t, 0) && AllHang(t, g, 0) && CutTree(t, from, t')
    requires c in t' && c != 0
    ensures Hangs(t', CutLayout(g, from), c)
  {
    assert Hangs(t, g, c);
    var u := g.up[c];
    assert NodeOk(t, g, m, u);
    var ents := t[u].ents;
    var j :| 0 <= j < |ents| && ents[j].addr == c;
    assert ChildOk(t, g, u, t[u].depth, ents, j);
    assert ents[0].key <= ents[j].key;
    KeepCountIs(ents, from, j);
    assert Keep(t, u, from);
    assert t'[u].ents[j].addr == c;
  }

  lemma CutHangAll(t: Tree, g: Layout, m: map<nat, nat>, from: nat, t': Tree)
    requires ShapeOk(t, g, m) && NonEmpty(t, 0) && AllHang(t, g, 0) && CutTree(t, from, t')
    ensures AllHang(ResetRoot(t'), CutLayout(g, from), 0)
  {
    assert 0 in t';
    hide ShapeOk, NonEmpty, AllHang;
    if HasKey(t'[0]) {
      forall c | c in t' && c != 0 ensures Hangs(t', CutLayout(g, from), c) {
        CutHangs(t, g, m, from, t', c);
      }
    } else {
      CutRootLeaf(t, g, m, from, t');
    }
    AllHangIntro(ResetRoot(t'), CutLayout(g, from));
  }

  lemma AllHangIntro(t: Tree, g: Layout)
    requires forall c :: c in t && c != 0 ==> Hangs(t, g, c)
    ensures AllHang(t, g, 0)
  {
  }

  lemma CutCap(blockCap: nat, t: Tree, from: nat, t': Tree)
    requires CapOk(blockCap, t) && CutTree(t, from, t') && 0 in t
    ensures CapOk(blockCap, ResetRoot(t'))
  {
    forall a | a in t' ensures t'[a].cap == t[a].cap &&
        (if t'[a].Leaf? then |t'[a].exts| else |t'[a].ents|) <= t[a].cap {
      CutSmaller(t[a], from);
    }
  }

  lemma CutNonEmpty(t: Tree, g: Layout, m: map<nat, nat>, from: nat, t': Tree)
    requires ShapeOk(t, g, m) && NonEmpty(t, 0) && CutTree(t, from, t')
    ensures NonEmpty(ResetRoot(t'), 0)
  {
    forall a | a in t' && a != 0 ensures HasKey(t'[a]) {
      CutKeeps1(t, g, m, a, from);
    }
  }

  lemma CutRest(blockCap: nat, t: Tree, g: Layout, m: map<nat, nat>, from: nat, t': Tree)
    requires TreeOk(blockCap, t, g, m) && CutTree(t, from, t')
    ensures RestOk(blockCap, ResetRoot(t'), CutLayout(g, from), Below(m, from), 0, 0, EXT_MAX_BLOCKS)
  {
    assert 0 in t;
    hide ShapeOk, AllHang, CapOk, NonEmpty;
    CutHangAll(t, g, m, from, t');
    CutCap(blockCap, t, from, t');
    CutNonEmpty(t, g, m, from, t');
  }

  lemma CutKeeps1(t: Tree, g: Layout, m: map<nat, nat>, a: nat, from: nat)
    requires ShapeOk(t, g, m) && a in t && HasKey(t[a]) && FirstKey(t[a]) < from
    ensures HasKey(Cut(t[a], from))
  {
    assert NodeOk(t, g, m, a);
    CutFirstKey(t, g, m, a, from);
  }

  lemma {:induction false} CutLeafSmaller(exts: seq<Extent>, from: nat)
    ensures |CutLeaf(exts, from)| <= |exts|
  {
    if exts != [] && exts[|exts| - 1].first >= from {
      CutLeafSmaller(exts[..|exts| - 1], from);
    }
  }

  lemma CutSmaller(n: Node, from: nat)
    ensures Cut(n, from).cap == n.cap
    ensures n.Leaf? ==> |Cut(n, from).exts| <= |n.exts|
    ensures n.Inner? ==> |Cut(n, from).ents| <= |n.ents|
  {
    if n.Leaf? {
      CutLeafSmaller(n.exts, from);
    }
  }

  /** Truncation leaves a well-formed tree that maps exactly the blocks below `from`. */
  lemma CutKeeps(blockCap: nat, t: Tree, g: Layout, m: map<nat, nat>, from: nat, t': Tree)
    requires TreeOk(blockCap, t, g, m) && CutTree(t, from, t')
    ensures TreeOk(blockCap, ResetRoot(t'), CutLayout(g, from), Below(m, from))
  {
    CutShape(t, g, m, from, t');
    CutRest(blockCap, t, g, m, from, t');
  }
}
