/**
 * The state of the walk that truncation makes over the tree: a boundary `cut` sweeps to the
 * right, everything to its left is already cut down, everything to its right is untouched,
 * and only the nodes on the current path are in between.
 */
module ExtentSweep {
  import opened ExtentNodes
  import opened ExtentSteps
  import opened ExtentCut
  import opened ExtentPath

  /** The tree before truncation, and where truncation starts. */
  datatype Origin = Origin(t: Tree, g: Layout, m: map<nat, nat>, from: nat)

  ghost predicate OriginOk(o: Origin) {
    ShapeOk(o.t, o.g, o.m) && AllHang(o.t, o.g, 0) && NonEmpty(o.t, 0) && o.from < EXT_MAX_BLOCKS
  }

  function Min(a: nat, b: nat): nat {
    if a < b then a else b
  }

  /** The entries of a node whose first `w` children are done, `kc` of all being kept in the end. */
  function Mid(ents: seq<Index>, kc: nat, w: nat): seq<Index>
    requires w <= |ents|
  {
    ents[..Min(kc, w)] + ents[w..]
  }

  ghost predicate SameBut(u: seq<Index>, v: seq<Index>, p: nat) {
    && |u| == |v|
    && (forall n :: 0 <= n < |u| && n != p ==> u[n] == v[n])
    && (p < |u| ==> u[p].addr == v[p].addr)
  }

  ghost function Kc(o: Origin, a: nat): nat
    requires a in o.t && o.t[a].Inner?
  {
    KeepCount(o.t[a].ents, o.from)
  }

  /** Where the child with original index `w` begins, or where the node ends. */
  ghost function Bound(o: Origin, a: nat, w: nat): nat
    requires a in o.t && o.t[a].Inner? && a in o.g.lo && a in o.g.hi
  {
    if w < |o.t[a].ents| then (if w == 0 then o.g.lo[a] else o.t[a].ents[w].key) else o.g.hi[a]
  }

  /** Level `j` of the walk: which node, which original child, which current position. */
  ghost predicate Level(o: Origin, path: seq<Step>, ws: seq<nat>, i: int, j: nat)
    requires 0 in o.t && j < |path|
  {
    var a := path[j].addr;
    && a in o.t && Placed(o.g, a) && Depth(o.t[a]) + j == Depth(o.t[0])
    && (j < Depth(o.t[0]) ==>
          && o.t[a].Inner? && j < |ws| && ws[j] <= |o.t[a].ents|
          && path[j].pos == Min(Kc(o, a), ws[j]))
    && (j < i ==>
          && j + 1 < |path| && j < Depth(o.t[0]) && ws[j] < |o.t[a].ents|
          && o.t[a].ents[ws[j]].addr == path[j + 1].addr)
  }

  ghost predicate Chain(o: Origin, path: seq<Step>, ws: seq<nat>, i: int) {
    && 0 in o.t && |path| == Depth(o.t[0]) + 1 && -1 <= i <= Depth(o.t[0])
    && path[0].addr == 0
    && (forall j :: 0 <= j <= i ==> Level(o, path, ws, i, j))
  }

  ghost predicate OnChain(path: seq<Step>, i: int, a: nat)
    requires i < |path|
  {
    exists j :: 0 <= j <= i && path[j].addr == a
  }

  /** What the node at level `j` currently looks like. */
  ghost predicate Content(o: Origin, t: Tree, path: seq<Step>, ws: seq<nat>, i: int, j: nat)
    requires Chain(o, path, ws, i) && j <= i && Level(o, path, ws, i, j)
  {
    var a := path[j].addr;
    && a in t
    && (j == Depth(o.t[0]) ==> t[a] == o.t[a])
    && (j < Depth(o.t[0]) ==>
          var mid := Mid(o.t[a].ents, Kc(o, a), ws[j]);
          && t[a].Inner? && t[a].depth == o.t[a].depth && t[a].cap == o.t[a].cap
          && (j == i ==> t[a].ents == mid)
          && (j < i ==> SameBut(t[a].ents, mid, path[j].pos))
          && (j < i && path[j + 1].addr in o.t && Keep(o.t, path[j + 1].addr, o.from) ==> t[a].ents == mid))
  }

  /** A node off the path is finished or untouched, depending on its side of the boundary. */
  ghost predicate Settled(o: Origin, t: Tree, cut: nat, a: nat)
    requires a in o.t
  {
    && a in o.g.lo && a in o.g.hi
    && (o.g.hi[a] <= cut && Keep(o.t, a, o.from) ==> a in t && t[a] == Cut(o.t[a], o.from))
    && (o.g.hi[a] <= cut && !Keep(o.t, a, o.from) ==> a !in t)
    && (o.g.lo[a] >= cut ==> a in t && t[a] == o.t[a])
  }

  ghost predicate Sweep(o: Origin, t: Tree, path: seq<Step>, ws: seq<nat>, i: int, cut: nat) {
    && Chain(o, path, ws, i)
    && t.Keys <= o.t.Keys
    && (forall j :: 0 <= j <= i ==> Content(o, t, path, ws, i, j))
    && (forall a :: a in o.t && !OnChain(path, i, a) ==> Settled(o, t, cut, a))
    && (i == -1 ==> cut == EXT_MAX_BLOCKS)
    && (0 <= i < Depth(o.t[0]) ==>
          Level(o, path, ws, i, i) && cut == Bound(o, path[i].addr, ws[i]) && o.from <= cut)
    && (i == Depth(o.t[0]) ==> Level(o, path, ws, i, i) && cut == o.g.lo[path[i].addr])
  }

  /** As `Sweep`, but the node at level `i` is completely dealt with. */
  ghost predicate Finished(o: Origin, t: Tree, path: seq<Step>, ws: seq<nat>, i: int) {
    && 0 <= i && Chain(o, path, ws, i) && Level(o, path, ws, i, i)
    && t.Keys <= o.t.Keys
    && path[i].addr in t && t[path[i].addr] == Cut(o.t[path[i].addr], o.from)
    && o.from <= o.g.hi[path[i].addr]
    && (forall j :: 0 <= j < i ==> Level(o, path, ws, i, j) && Content(o, t, path, ws, i, j))
    && (forall a :: a in o.t && !OnChain(path, i, a) ==> Settled(o, t, o.g.hi[path[i].addr], a))
  }

  // ----- the chain -----

  lemma ChainDistinct(o: Origin, path: seq<Step>, ws: seq<nat>, i: int, j: nat, k: nat)
    requires Chain(o, path, ws, i) && j < k <= i
    ensures path[j].addr != path[k].addr
  {
    assert Level(o, path, ws, i, j) && Level(o, path, ws, i, k);
  }

  lemma NotOnChain(o: Origin, path: seq<Step>, ws: seq<nat>, i: int, a: nat)
    requires Chain(o, path, ws, i) && a in o.t && Depth(o.t[a]) + i < Depth(o.t[0])
    ensures i < |path| && !OnChain(path, i, a)
  {
    forall j | 0 <= j <= i ensures path[j].addr != a {
      assert Level(o, path, ws, i, j);
    }
  }

  // ----- an index node with no children left -----

  lemma SweepFinished(o: Origin, t: Tree, path: seq<Step>, ws: seq<nat>, i: nat, cut: nat)
    requires Sweep(o, t, path, ws, i, cut) && i < Depth(o.t[0])
    requires ws[i] == |o.t[path[i].addr].ents|
    ensures Finished(o, t, path, ws, i)
    ensures cut == o.g.hi[path[i].addr]
  {
    assert Level(o, path, ws, i, i) && Content(o, t, path, ws, i, i);
    var a := path[i].addr;
    var ents := o.t[a].ents;
    assert Mid(ents, Kc(o, a), |ents|) == ents[..Kc(o, a)];
    forall j | 0 <= j < i ensures Level(o, path, ws, i, j) && Content(o, t, path, ws, i, j) {
    }
  }

  // ----- going down to the next child -----

  /** The next child: it is at the current position and still untouched. */
  lemma NextChild(o: Origin, t: Tree, path: seq<Step>, ws: seq<nat>, i: nat, cut: nat)
    requires OriginOk(o) && Sweep(o, t, path, ws, i, cut) && i < Depth(o.t[0])
    requires Level(o, path, ws, i, i) && ws[i] < |o.t[path[i].addr].ents|
    ensures var a := path[i].addr;
      a in t && t[a].Inner? && path[i].pos < |t[a].ents| &&
      var c := t[a].ents[path[i].pos].addr;
      && c == o.t[a].ents[ws[i]].addr
      && c in o.t && c in t && t[c] == o.t[c] && Placed(o.g, c) && Depth(o.t[c]) + i + 1 == Depth(o.t[0])
      && o.g.lo[c] == cut && (o.t[c].Leaf? || o.t[c].ents != [])
  {
    var a, w := path[i].addr, ws[i];
    assert Content(o, t, path, ws, i, i);
    var ents := o.t[a].ents;
    assert Mid(ents, Kc(o, a), w)[path[i].pos] == ents[w];
    assert NodeOk(o.t, o.g, o.m, a);
    assert ChildOk(o.t, o.g, a, o.t[a].depth, ents, w);
    var c := ents[w].addr;
    assert NodeOk(o.t, o.g, o.m, c);
    NotOnChain(o, path, ws, i, c);
    assert Settled(o, t, cut, c);
  }

  ghost function DownWs(o: Origin, ws: seq<nat>, i: nat): seq<nat>
    requires 0 in o.t && i < |ws|
  {
    if i + 1 < Depth(o.t[0]) then ws[..i + 1] + [0] else ws[..i + 1]
  }

  lemma DownChain(o: Origin, path: seq<Step>, ws: seq<nat>, i: nat, c: nat)
    requires Chain(o, path, ws, i) && i < Depth(o.t[0]) && Level(o, path, ws, i, i)
    requires ws[i] < |o.t[path[i].addr].ents| && c == o.t[path[i].addr].ents[ws[i]].addr
    requires c in o.t && Placed(o.g, c) && Depth(o.t[c]) + i + 1 == Depth(o.t[0])
    requires o.t[c].Leaf? || o.t[c].ents != []
    ensures Chain(o, path[i + 1 := Step(c, 0)], DownWs(o, ws, i), i + 1)
  {
    var path', ws', k := path[i + 1 := Step(c, 0)], DownWs(o, ws, i), i + 1;
    forall j | 0 <= j <= k ensures Level(o, path', ws', k, j) {
      if j <= i {
        assert Level(o, path, ws, i, j);
      }
    }
  }

  lemma DownContent(o: Origin, t: Tree, path: seq<Step>, ws: seq<nat>, i: nat, c: nat, path': seq<Step>, ws': seq<nat>,
                    k: nat, j: nat)
    requires Chain(o, path, ws, i) && k == i + 1 < |path| && i < |ws|
    requires path' == path[k := Step(c, 0)] && ws' == DownWs(o, ws, i)
    requires Chain(o, path', ws', k) && j <= k && Level(o, path', ws', k, j)
    requires j <= i ==> Level(o, path, ws, i, j) && Content(o, t, path, ws, i, j)
    requires c in o.t && c in t && t[c] == o.t[c]
    ensures Content(o, t, path', ws', k, j)
  {
    if j == k && j < Depth(o.t[0]) {
      assert Mid(o.t[c].ents, Kc(o, c), 0) == o.t[c].ents;
    }
  }

  lemma SweepDown(o: Origin, t: Tree, path: seq<Step>, ws: seq<nat>, i: nat, cut: nat)
    requires OriginOk(o) && Sweep(o, t, path, ws, i, cut) && i < Depth(o.t[0])
    requires Level(o, path, ws, i, i) && ws[i] < |o.t[path[i].addr].ents|
    ensures var a := path[i].addr;
      a in t && t[a].Inner? && path[i].pos < |t[a].ents| &&
      var c := t[a].ents[path[i].pos].addr;
      && c == o.t[a].ents[ws[i]].addr && c in o.t && Placed(o.g, c)
      && Sweep(o, t, path[i + 1 := Step(c, 0)], DownWs(o, ws, i), i + 1, cut)
  {
    hide OriginOk, NodeOk, ShapeOk;
    NextChild(o, t, path, ws, i, cut);
    var c := o.t[path[i].addr].ents[ws[i]].addr;
    DownChain(o, path, ws, i, c);
    var path', ws', k := path[i + 1 := Step(c, 0)], DownWs(o, ws, i), i + 1;
    forall j | 0 <= j <= k ensures Content(o, t, path', ws', k, j) {
      assert Level(o, path', ws', k, j);
      if j <= i {
        assert Level(o, path, ws, i, j);
      }
      DownContent(o, t, path, ws, i, c, path', ws', k, j);
    }
    forall b | b in o.t && !OnChain(path', k, b) ensures Settled(o, t, cut, b) {
      forall j | 0 <= j <= i ensures path[j].addr != b {
        assert path'[j] == path[j];
      }
    }
    assert Level(o, path', ws', k, k);
  }

  // ----- finishing a leaf -----

  lemma InnerChildRange(t: Tree, g: Layout, a: nat, depth: nat, ents: seq<Index>, w: nat)
    requires Placed(g, a) && InnerOk(t, g, a, depth, ents) && w < |ents|
    ensures Placed(g, ents[w].addr) && g.lo[a] <= g.lo[ents[w].addr] && g.hi[ents[w].addr] <= g.hi[a]
  {
    assert ChildOk(t, g, a, depth, ents, w);
    assert ents[0].key <= ents[w].key <= ents[|ents| - 1].key;
  }

  lemma ChildRange(o: Origin, a: nat, w: nat)
    requires OriginOk(o) && a in o.t && o.t[a].Inner? && w < |o.t[a].ents|
    ensures Placed(o.g, a) && Placed(o.g, o.t[a].ents[w].addr)
    ensures o.g.lo[a] <= o.g.lo[o.t[a].ents[w].addr] && o.g.hi[o.t[a].ents[w].addr] <= o.g.hi[a]
  {
    hide InnerOk;
    assert NodeOk(o.t, o.g, o.m, a);
    InnerChildRange(o.t, o.g, a, o.t[a].depth, o.t[a].ents, w);
  }

  lemma DepthZeroLeaf(o: Origin, a: nat)
    requires OriginOk(o) && a in o.t
    ensures Depth(o.t[a]) == 0 ==> o.t[a].Leaf?
    ensures Placed(o.g, a)
  {
    assert NodeOk(o.t, o.g, o.m, a);
  }

  /** Every node of the chain contains the range of the last one. */
  lemma {:induction false} ChainRange(o: Origin, path: seq<Step>, ws: seq<nat>, i: nat, j: nat)
    requires OriginOk(o) && Chain(o, path, ws, i) && j <= i
    ensures Level(o, path, ws, i, j) && Level(o, path, ws, i, i)
    ensures o.g.lo[path[j].addr] <= o.g.lo[path[i].addr] && o.g.hi[path[i].addr] <= o.g.hi[path[j].addr]
    decreases i - j
  {
    hide OriginOk;
    assert Level(o, path, ws, i, j) && Level(o, path, ws, i, i);
    if j < i {
      ChainRange(o, path, ws, i, j + 1);
      ChildRange(o, path[j].addr, ws[j]);
    }
  }

  /** A node off the chain lies wholly on one side of the last node of the chain. */
  lemma OffChainApart(o: Origin, path: seq<Step>, ws: seq<nat>, i: nat, b: nat)
    requires OriginOk(o) && Chain(o, path, ws, i) && i == Depth(o.t[0])
    requires b in o.t && !OnChain(path, i, b) && b in o.g.lo && b in o.g.hi
    ensures Level(o, path, ws, i, i) && Placed(o.g, b)
    ensures o.g.hi[b] <= o.g.lo[path[i].addr] || o.g.hi[path[i].addr] <= o.g.lo[b]
  {
    assert b != 0 ==> Hangs(o.t, o.g, b);
    var j: nat := Depth(o.t[0]) - Depth(o.t[b]);
    ChainRange(o, path, ws, i, j);
    assert path[j].addr != b;
    assert NodeOk(o.t, o.g, o.m, b);
    SameDepthApart(o.t, o.g, o.m, path[j].addr, b);
  }

  lemma LeafFinished(o: Origin, t: Tree, path: seq<Step>, ws: seq<nat>, cut: nat)
    requires OriginOk(o) && Sweep(o, t, path, ws, Depth(o.t[0]), cut)
    requires Level(o, path, ws, Depth(o.t[0]), Depth(o.t[0]))
    requires o.from <= o.g.hi[path[|path| - 1].addr]
    ensures var a := path[|path| - 1].addr;
      a in t && t[a].Leaf? && t[a] == o.t[a]
      && Finished(o, SetLeaf(t, a, CutLeaf(t[a].exts, o.from)), path, ws, Depth(o.t[0]))
  {
    hide OriginOk;
    var i := Depth(o.t[0]);
    var a := path[i].addr;
    assert Content(o, t, path, ws, i, i);
    DepthZeroLeaf(o, a);
    var t' := SetLeaf(t, a, CutLeaf(t[a].exts, o.from));
    forall j | 0 <= j < i ensures Level(o, path, ws, i, j) && Content(o, t', path, ws, i, j) {
      assert Content(o, t, path, ws, i, j);
      ChainDistinct(o, path, ws, i, j, i);
    }
    forall b | b in o.t && !OnChain(path, i, b) ensures Settled(o, t', o.g.hi[a], b) {
      assert Settled(o, t, cut, b);
      OffChainApart(o, path, ws, i, b);
    }
  }

  // ----- going back up -----

  /** The entry for a node says whether the node is kept. */
  lemma KeepByEntry(o: Origin, path: seq<Step>, ws: seq<nat>, i: nat)
    requires OriginOk(o) && Chain(o, path, ws, i) && 0 < i && Level(o, path, ws, i, i - 1) && Level(o, path, ws, i, i)
    ensures Keep(o.t, path[i].addr, o.from) <==> ws[i - 1] < Kc(o, path[i - 1].addr)
    ensures o.g.hi[path[i].addr] == Bound(o, path[i - 1].addr, ws[i - 1] + 1)
    ensures path[i].addr != 0
  {
    var u, w := path[i - 1].addr, ws[i - 1];
    assert NodeOk(o.t, o.g, o.m, u);
    assert ChildOk(o.t, o.g, u, o.t[u].depth, o.t[u].ents, w);
    KeepCountIs(o.t[u].ents, o.from, w);
  }

  ghost function UpPath(path: seq<Step>, i: nat, kept: bool): seq<Step>
    requires 0 < i < |path|
  {
    if kept then path[i - 1 := Step(path[i - 1].addr, path[i - 1].pos + 1)] else path
  }

  ghost function UpWs(ws: seq<nat>, i: nat): seq<nat>
    requires 0 < i <= |ws|
  {
    ws[..i - 1] + [ws[i - 1] + 1]
  }

  lemma UpChain(o: Origin, path: seq<Step>, ws: seq<nat>, i: nat)
    requires OriginOk(o) && Chain(o, path, ws, i) && 0 < i && i <= |ws|
    requires Level(o, path, ws, i, i)
    ensures Chain(o, UpPath(path, i, Keep(o.t, path[i].addr, o.from)), UpWs(ws, i), i - 1)
  {
    hide OriginOk;
    assert Level(o, path, ws, i, i - 1);
    KeepByEntry(o, path, ws, i);
    var path', ws', k := UpPath(path, i, Keep(o.t, path[i].addr, o.from)), UpWs(ws, i), i - 1;
    forall j | 0 <= j <= k ensures Level(o, path', ws', k, j) {
      assert Level(o, path, ws, i, j);
    }
  }

  /** Off the shorter chain there is one more node: the one just finished. */
  lemma UpSettled(o: Origin, t: Tree, t': Tree, path: seq<Step>, ws: seq<nat>, i: nat, path': seq<Step>, k: nat, b: nat)
    requires Finished(o, t, path, ws, i) && 0 < i && k == i - 1
    requires |path'| == |path| && (forall j :: 0 <= j <= k ==> path'[j].addr == path[j].addr)
    requires b in o.t && !OnChain(path', k, b)
    requires forall c :: c in o.t && c != path[i].addr && !OnChain(path', k, c) ==>
      (c in t <==> c in t') && (c in t ==> t'[c] == t[c])
    requires if Keep(o.t, path[i].addr, o.from) then path[i].addr in t' && t'[path[i].addr] == t[path[i].addr]
             else path[i].addr !in t'
    requires path[i].addr in o.g.lo && o.g.lo[path[i].addr] < o.g.hi[path[i].addr]
    ensures Settled(o, t', o.g.hi[path[i].addr], b)
  {
    if b != path[i].addr {
      assert !OnChain(path, i, b) by {
        forall j | 0 <= j <= i ensures path[j].addr != b {
          assert j <= k ==> path'[j].addr == path[j].addr;
        }
      }
      assert Settled(o, t, o.g.hi[path[i].addr], b);
    }
  }

  lemma MidKept(ents: seq<Index>, kc: nat, w: nat)
    requires w < kc <= |ents|
    ensures Mid(ents, kc, w) == ents == Mid(ents, kc, w + 1)
  {
  }

  lemma MidRemoved(ents: seq<Index>, kc: nat, w: nat, v: seq<Index>)
    requires kc <= w < |ents| && SameBut(v, Mid(ents, kc, w), kc)
    ensures kc < |v| && v[..kc] + v[kc + 1..] == Mid(ents, kc, w + 1)
    ensures v[kc].addr == ents[w].addr
  {
    var mid := Mid(ents, kc, w);
    var u := v[..kc] + v[kc + 1..];
    assert |mid| == kc + |ents| - w;
    forall n | 0 <= n < |u| ensures u[n] == Mid(ents, kc, w + 1)[n] {
      if n < kc {
        assert u[n] == v[n] == mid[n] == ents[n];
      } else {
        assert u[n] == v[n + 1] == mid[n + 1] == ents[w + 1 + n - kc];
      }
    }
    assert mid[kc] == ents[w];
  }

  ghost function ChildKept(o: Origin, path: seq<Step>, i: nat): bool
    requires i < |path| && path[i].addr in o.t
  {
    Keep(o.t, path[i].addr, o.from)
  }

  /** A kept node is left behind: the position one level up moves past its entry. */
  lemma PopKept(o: Origin, t: Tree, path: seq<Step>, ws: seq<nat>, i: nat)
    requires OriginOk(o) && Finished(o, t, path, ws, i) && 0 < i <= |ws|
    requires ChildKept(o, path, i)
    ensures Sweep(o, t, UpPath(path, i, true), UpWs(ws, i), i - 1, o.g.hi[path[i].addr])
  {
    hide OriginOk;
    var path', ws', k := UpPath(path, i, true), UpWs(ws, i), i - 1;
    UpChain(o, path, ws, i);
    assert Level(o, path, ws, i, k);
    KeepByEntry(o, path, ws, i);
    forall j | 0 <= j <= k ensures Content(o, t, path', ws', k, j) {
      assert Level(o, path', ws', k, j) && Level(o, path, ws, i, j) && Content(o, t, path, ws, i, j);
      if j == k {
        MidKept(o.t[path[k].addr].ents, Kc(o, path[k].addr), ws[k]);
      }
    }
    forall b | b in o.t && !OnChain(path', k, b) ensures Settled(o, t, o.g.hi[path[i].addr], b) {
      UpSettled(o, t, t, path, ws, i, path', k, b);
    }
    assert Level(o, path', ws', k, k);
  }

  /** Take the entry at `pos` out of node `u` and the child it points to out of the tree. */
  function Unlinked(t: Tree, u: nat, pos: nat): Tree
    requires u in t && t[u].Inner? && pos < |t[u].ents|
  {
    (t - {t[u].ents[pos].addr})[u := t[u].(ents := t[u].ents[..pos] + t[u].ents[pos + 1..])]
  }

  /** An emptied node is freed together with its entry one level up. */
  lemma PopRemoved(o: Origin, t: Tree, path: seq<Step>, ws: seq<nat>, i: nat)
    requires OriginOk(o) && Finished(o, t, path, ws, i) && 0 < i <= |ws|
    requires !ChildKept(o, path, i)
    ensures var u, pos := path[i - 1].addr, path[i - 1].pos;
      u in t && t[u].Inner? && pos < |t[u].ents| && t[u].ents[pos].addr == path[i].addr &&
      var t' := Unlinked(t, u, pos);
      && Sweep(o, t', path, UpWs(ws, i), i - 1, o.g.hi[path[i].addr])
      && t'.Keys == t.Keys - {path[i].addr}
      && Kc(o, u) <= ws[i - 1]
  {
    hide OriginOk;
    var ws', k := UpWs(ws, i), i - 1;
    UpChain(o, path, ws, i);
    assert Level(o, path, ws, i, k) && Content(o, t, path, ws, i, k);
    KeepByEntry(o, path, ws, i);
    var u, pos := path[k].addr, path[k].pos;
    MidRemoved(o.t[u].ents, Kc(o, u), ws[k], t[u].ents);
    var t' := Unlinked(t, u, pos);
    ChainDistinct(o, path, ws, i, k, i);
    forall j | 0 <= j <= k ensures Content(o, t', path, ws', k, j) {
      assert Level(o, path, ws', k, j);
      PopContent(o, t, path, ws, i, t', ws', k, j);
    }
    forall b | b in o.t && !OnChain(path, k, b) ensures Settled(o, t', o.g.hi[path[i].addr], b) {
      assert b != u;
      UpSettled(o, t, t', path, ws, i, path, k, b);
    }
    assert Level(o, path, ws', k, k);
  }

  lemma PopContent(o: Origin, t: Tree, path: seq<Step>, ws: seq<nat>, i: nat, t': Tree, ws': seq<nat>, k: nat, j: nat)
    requires Finished(o, t, path, ws, i) && 0 < i <= |ws| && k == i - 1 && j <= k
    requires ws' == UpWs(ws, i) && Chain(o, path, ws', k) && Level(o, path, ws', k, j) && Level(o, path, ws, i, k)
    requires Content(o, t, path, ws, i, k)
    requires var u := path[k].addr;
      && u in t' && t'[u].Inner? && t'[u].depth == t[u].depth && t'[u].cap == t[u].cap
      && t'[u].ents == Mid(o.t[u].ents, Kc(o, u), ws[k] + 1)
    requires forall c :: c in t && c != path[k].addr && c != path[i].addr ==> c in t' && t'[c] == t[c]
    ensures Content(o, t', path, ws', k, j)
  {
    assert Level(o, path, ws, i, j) && Content(o, t, path, ws, i, j);
    if j < k {
      ChainDistinct(o, path, ws, i, j, k);
      ChainDistinct(o, path, ws, i, j, i);
    }
  }

  // ----- index keys above a removed entry -----

  /** The key of an entry whose child is going to be removed does not matter any more. */
  lemma RaiseKey(o: Origin, t: Tree, path: seq<Step>, ws: seq<nat>, i: nat, cut: nat, k: nat, x: nat)
    requires Sweep(o, t, path, ws, i, cut) && 0 < k <= i
    requires path[k].addr in o.t && !Keep(o.t, path[k].addr, o.from)
    ensures var s := path[k - 1];
      s.addr in t && t[s.addr].Inner? && s.pos < |t[s.addr].ents|
      && Sweep(o, SetKey(t, s, x), path, ws, i, cut)
      && SetKey(t, s, x).Keys == t.Keys
  {
    var s, h := path[k - 1], k - 1;
    assert Level(o, path, ws, i, h) && Content(o, t, path, ws, i, h);
    assert |Mid(o.t[s.addr].ents, Kc(o, s.addr), ws[h])| > s.pos;
    var t' := SetKey(t, s, x);
    forall j | 0 <= j <= i ensures Content(o, t', path, ws, i, j) {
      assert Level(o, path, ws, i, j) && Content(o, t, path, ws, i, j);
      if j < h {
        ChainDistinct(o, path, ws, i, j, h);
      } else if h < j {
        ChainDistinct(o, path, ws, i, h, j);
      }
    }
    forall b | b in o.t && !OnChain(path, i, b) ensures Settled(o, t', cut, b) {
      assert Settled(o, t, cut, b) && b != path[h].addr;
    }
    assert i < Depth(o.t[0]) ==> Level(o, path, ws, i, i);
  }

  /** A node whose position is back at 0 after its first children were removed loses all of them. */
  lemma Doomed(o: Origin, path: seq<Step>, ws: seq<nat>, i: nat, k: nat)
    requires OriginOk(o) && Chain(o, path, ws, i) && 0 < k <= i && k < Depth(o.t[0])
    requires Level(o, path, ws, i, k) && path[k].pos == 0
    requires if k == i then ws[i] > 0 else path[k + 1].addr in o.t && !Keep(o.t, path[k + 1].addr, o.from)
    ensures !Keep(o.t, path[k].addr, o.from)
  {
    hide OriginOk;
    ChainDistinct(o, path, ws, i, 0, k);
    var a := path[k].addr;
    assert Kc(o, a) == 0 by {
      if k < i {
        assert Level(o, path, ws, i, k + 1);
        DoomedChild(o, a, ws[k]);
      }
    }
    FirstKept(o, a);
  }

  lemma FirstKept(o: Origin, a: nat)
    requires OriginOk(o) && a in o.t && o.t[a].Inner?
    ensures o.t[a].ents != [] && (o.t[a].ents[0].key < o.from <==> Kc(o, a) > 0)
  {
    assert NodeOk(o.t, o.g, o.m, a);
    KeepCountIs(o.t[a].ents, o.from, 0);
  }

  lemma DoomedChild(o: Origin, a: nat, w: nat)
    requires OriginOk(o) && a in o.t && o.t[a].Inner? && w < |o.t[a].ents|
    requires o.t[a].ents[w].addr in o.t && !Keep(o.t, o.t[a].ents[w].addr, o.from)
    ensures Kc(o, a) <= w
  {
    assert NodeOk(o.t, o.g, o.m, a);
    assert ChildOk(o.t, o.g, a, o.t[a].depth, o.t[a].ents, w);
    KeepCountIs(o.t[a].ents, o.from, w);
  }

  // ----- beginning and end -----

  /** Nodes that end at or before `from` are kept as they are. */
  lemma LeftUncut(o: Origin, b: nat)
    requires OriginOk(o) && b in o.t && b in o.g.hi && o.g.hi[b] <= o.from && b != 0
    ensures Keep(o.t, b, o.from) && Cut(o.t[b], o.from) == o.t[b]
  {
    assert NodeOk(o.t, o.g, o.m, b);
    assert HasKey(o.t[b]);
    match o.t[b] {
      case Leaf(_, exts) =>
        forall i | 0 <= i < |exts| ensures exts[i].first < o.from && exts[i].first + exts[i].len <= o.from {
          assert ExtentOk(o.g, o.m, b, exts[i]);
        }
        CutLeafIs(exts, |exts|, o.from);
        assert exts[..|exts|] == exts;
      case Inner(_, _, ents) =>
        KeepCountIs(ents, o.from, |ents| - 1);
        assert ents[0].key <= ents[|ents| - 1].key;
        assert ents[..|ents|] == ents;
    }
  }

  ghost function Positions(path: seq<Step>, n: nat): seq<nat>
    requires n <= |path|
  {
    seq(n, j requires 0 <= j < n => path[j].pos)
  }

  lemma StartLevel(o: Origin, path: seq<Step>, j: nat)
    requires OriginOk(o) && PathOk(o.t, o.g, path, o.from, o.from + 1) && j < |path|
    ensures Level(o, path, Positions(path, |path| - 1), |path| - 1, j)
  {
    assert LinkedAt(o.t, path, j);
    assert Placed(o.g, path[j].addr);
    if j + 1 < |path| {
      var a, pos := path[j].addr, path[j].pos;
      var ents := o.t[a].ents;
      assert NodeOk(o.t, o.g, o.m, a);
      assert ChildOk(o.t, o.g, a, o.t[a].depth, ents, pos);
      assert Placed(o.g, path[j + 1].addr) && o.g.lo[path[j + 1].addr] <= o.from;
      if pos > 0 {
        assert ents[pos - 1].key < ents[pos].key <= o.from;
        KeepCountIs(ents, o.from, pos - 1);
      }
    }
  }

  lemma SweepStart(o: Origin, path: seq<Step>)
    requires OriginOk(o) && PathOk(o.t, o.g, path, o.from, o.from + 1)
    ensures path[|path| - 1].addr in o.g.lo
    ensures Sweep(o, o.t, path, Positions(path, |path| - 1), |path| - 1, o.g.lo[path[|path| - 1].addr])
  {
    var i := |path| - 1;
    var ws := Positions(path, i);
    assert |path| == Depth(o.t[0]) + 1 && path[0].addr == 0;
    assert Placed(o.g, path[i].addr) && o.g.lo[path[i].addr] <= o.from;
    hide OriginOk, PathOk, Cut;
    forall j | 0 <= j <= i ensures Level(o, path, ws, i, j) {
      StartLevel(o, path, j);
    }
    var cut := o.g.lo[path[i].addr];
    forall j | 0 <= j <= i ensures Content(o, o.t, path, ws, i, j) {
      assert Level(o, path, ws, i, j);
      if j < i {
        var ents := o.t[path[j].addr].ents;
        assert Mid(ents, Kc(o, path[j].addr), ws[j]) == ents;
      }
    }
    forall b | b in o.t && !OnChain(path, i, b) ensures Settled(o, o.t, cut, b) {
      DepthZeroLeaf(o, b);
      assert path[0].addr == 0;
      if o.g.hi[b] <= cut {
        LeftUncut(o, b);
      }
    }
  }

  /** The root is done last. */
  lemma SweepEnd(o: Origin, t: Tree, path: seq<Step>, ws: seq<nat>)
    requires OriginOk(o) && Finished(o, t, path, ws, 0)
    ensures CutTree(o.t, o.from, t)
  {
    assert Level(o, path, ws, 0, 0);
    assert path[0].addr == 0 && o.g.hi[0] == EXT_MAX_BLOCKS;
    forall a | a in o.t
      ensures a in t <==> Keep(o.t, a, o.from)
      ensures a in t ==> t[a] == Cut(o.t[a], o.from)
    {
      if a != 0 {
        assert !OnChain(path, 0, a);
        assert Settled(o, t, EXT_MAX_BLOCKS, a);
        assert NodeOk(o.t, o.g, o.m, a);
      }
    }
  }
}
