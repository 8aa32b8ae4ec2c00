/**
 * The on-disk extent tree of ext4_extent.c as a map from block address to node.
 * Address 0 stands for the root, which lives inside the inode (the source also
 * uses block id 0 for it).  The ghost layout gives every node the range of logical
 * blocks it is responsible for and the node that points to it; `TreeOk` ties the
 * layout, the nodes and the abstract block map together, one node at a time.
 */
module ExtentNodes {

  const EXT_INIT_MAX_LEN: nat := 0x8000
  const EXT_MAX_BLOCKS: nat := 0xFFFF_FFFF
  const ROOT_CAP: nat := 4

  /** A written extent: `len` logical blocks from `first`, stored from block `start` on. */
  datatype Extent = Extent(first: nat, len: nat, start: nat)

  datatype Index = Index(key: nat, addr: nat)

  datatype Node =
    | Leaf(cap: nat, exts: seq<Extent>)
    | Inner(depth: nat, cap: nat, ents: seq<Index>)

  type Tree = map<nat, Node>

  /** Ghost layout: the half-open range [lo, hi) of every node and its parent. */
  datatype Layout = Layout(lo: map<nat, nat>, hi: map<nat, nat>, up: map<nat, nat>)

  datatype Option<T> = None | Some(value: T)

  function BlockCap(blockSize: nat): nat {
    if blockSize < 12 then 0 else (blockSize - 12) / 12
  }

  /** A header of 12 bytes and as many entries of 12 bytes as fit behind it. */
  lemma BlockCapIs(blockSize: nat)
    requires blockSize >= 12
    ensures 12 + 12 * BlockCap(blockSize) <= blockSize < 24 + 12 * BlockCap(blockSize)
  {
  }

  function Depth(n: Node): nat {
    if n.Leaf? then 0 else n.depth
  }

  predicate Covers(e: Extent, x: nat) {
    e.first <= x < e.first + e.len
  }

  function Phys(e: Extent, x: nat): nat
    requires Covers(e, x)
  {
    e.start + (x - e.first)
  }

  predicate HasKey(n: Node) {
    if n.Leaf? then n.exts != [] else n.ents != []
  }

  /** The first logical block mentioned in a node. */
  function FirstKey(n: Node): nat
    requires HasKey(n)
  {
    if n.Leaf? then n.exts[0].first else n.ents[0].key
  }

  // ----- reading the tree -----

  /** Position of the last extent that starts at or before `x`, or 0. */
  function ExtentSlot(exts: seq<Extent>, x: nat): (r: nat)
    ensures exts != [] ==> r < |exts|
  {
    if |exts| <= 1 || exts[|exts| - 1].first <= x then
      if exts == [] then 0 else |exts| - 1
    else
      ExtentSlot(exts[..|exts| - 1], x)
  }

  /** Position of the last index entry whose key is at or before `x`, or 0. */
  function IndexSlot(ents: seq<Index>, x: nat): (r: nat)
    ensures ents != [] ==> r < |ents|
  {
    if |ents| <= 1 || ents[|ents| - 1].key <= x then
      if ents == [] then 0 else |ents| - 1
    else
      IndexSlot(ents[..|ents| - 1], x)
  }

  /** What a leaf says about logical block `x`. */
  function LeafLookup(exts: seq<Extent>, x: nat): Option<nat> {
    if exts == [] then None
    else
      var e := exts[ExtentSlot(exts, x)];
      if Covers(e, x) then Some(Phys(e, x)) else None
  }

  /** The physical block of logical block `x`, found by walking down `d` levels from node `a`. */
  function Lookup(t: Tree, a: nat, d: nat, x: nat): Option<nat>
    decreases d
  {
    if a !in t then None
    else match t[a]
      case Leaf(_, exts) => LeafLookup(exts, x)
      case Inner(_, _, ents) =>
        if d == 0 || ents == [] then None
        else Lookup(t, ents[IndexSlot(ents, x)].addr, d - 1, x)
  }

  /** The whole file: what the tree maps logical block `x` to. */
  function FileBlock(t: Tree, x: nat): Option<nat> {
    if 0 in t then Lookup(t, 0, Depth(t[0]), x) else None
  }

  /** The extent a search for `x` ends at, whether or not it covers `x`. */
  function Found(t: Tree, a: nat, d: nat, x: nat): Option<Extent>
    decreases d
  {
    if a !in t then None
    else match t[a]
      case Leaf(_, exts) => if exts == [] then None else Some(exts[ExtentSlot(exts, x)])
      case Inner(_, _, ents) =>
        if d == 0 || ents == [] then None
        else Found(t, ents[IndexSlot(ents, x)].addr, d - 1, x)
  }

  function FoundExtent(t: Tree, x: nat): Option<Extent> {
    if 0 in t then Found(t, 0, Depth(t[0]), x) else None
  }

  // ----- well-formedness -----

  ghost predicate Sorted(exts: seq<Extent>) {
    forall i, j :: 0 <= i < j < |exts| ==> exts[i].first + exts[i].len <= exts[j].first
  }

  ghost predicate SortedKeys(ents: seq<Index>) {
    forall i, j :: 0 <= i < j < |ents| ==> ents[i].key < ents[j].key
  }

  ghost predicate Placed(g: Layout, a: nat) {
    a in g.lo && a in g.hi && g.lo[a] < g.hi[a] <= EXT_MAX_BLOCKS
  }

  ghost predicate ExtentOk(g: Layout, m: map<nat, nat>, a: nat, e: Extent)
    requires Placed(g, a)
  {
    && 1 <= e.len <= EXT_INIT_MAX_LEN
    && g.lo[a] <= e.first && e.first + e.len <= g.hi[a]
    && forall x :: Covers(e, x) ==> x in m && m[x] == Phys(e, x)
  }

  ghost predicate CoveredBy(exts: seq<Extent>, x: nat) {
    exists i :: 0 <= i < |exts| && Covers(exts[i], x)
  }

  /** A leaf holds exactly the part of the map that falls into its range. */
  ghost predicate LeafOk(g: Layout, m: map<nat, nat>, a: nat, exts: seq<Extent>)
    requires Placed(g, a)
  {
    && Sorted(exts)
    && (forall i :: 0 <= i < |exts| ==> ExtentOk(g, m, a, exts[i]))
    && (forall x :: x in m && g.lo[a] <= x < g.hi[a] ==> CoveredBy(exts, x))
  }

  /** Entry `j` points to a node one level down that owns exactly the entry's range. */
  ghost predicate ChildOk(t: Tree, g: Layout, a: nat, depth: nat, ents: seq<Index>, j: nat)
    requires Placed(g, a) && j < |ents|
  {
    var c := ents[j].addr;
    && c != 0 && c in t && Placed(g, c)
    && c in g.up && g.up[c] == a
    && Depth(t[c]) + 1 == depth
    && g.lo[c] == (if j == 0 then g.lo[a] else ents[j].key)
    && g.hi[c] == (if j + 1 < |ents| then ents[j + 1].key else g.hi[a])
    && (HasKey(t[c]) ==> FirstKey(t[c]) == ents[j].key)
  }

  ghost predicate InnerOk(t: Tree, g: Layout, a: nat, depth: nat, ents: seq<Index>)
    requires Placed(g, a)
  {
    && ents != []
    && depth > 0
    && SortedKeys(ents)
    && g.lo[a] <= ents[0].key
    && ents[|ents| - 1].key < g.hi[a]
    && (forall j :: 0 <= j < |ents| ==> ChildOk(t, g, a, depth, ents, j))
  }

  ghost predicate NodeOk(t: Tree, g: Layout, m: map<nat, nat>, a: nat)
    requires a in t
  {
    && Placed(g, a)
    && match t[a]
       case Leaf(_, exts) => LeafOk(g, m, a, exts)
       case Inner(depth, _, ents) => InnerOk(t, g, a, depth, ents)
  }

  /** Every node but the root hangs below its parent. */
  ghost predicate Hangs(t: Tree, g: Layout, c: nat)
  {
    && 0 in t && c in t && Depth(t[c]) < Depth(t[0])
    && c in g.up && g.up[c] in t
    && t[g.up[c]].Inner?
    && exists j :: 0 <= j < |t[g.up[c]].ents| && t[g.up[c]].ents[j].addr == c
  }

  ghost predicate RootOk(t: Tree, g: Layout) {
    && 0 in t && 0 in g.lo && 0 in g.hi
    && g.lo[0] == 0 && g.hi[0] == EXT_MAX_BLOCKS
  }

  ghost predicate MapOk(m: map<nat, nat>) {
    forall x :: x in m ==> x < EXT_MAX_BLOCKS
  }

  /** Structure and content, with no statement yet about sizes of nodes. */
  ghost predicate ShapeOk(t: Tree, g: Layout, m: map<nat, nat>) {
    && RootOk(t, g)
    && MapOk(m)
    && forall a :: a in t ==> NodeOk(t, g, m, a)
  }

  /** As `ShapeOk`, but node `p` is judged by the entries `ents` instead of its own. */
  ghost predicate ShapeOkWith(t: Tree, g: Layout, m: map<nat, nat>, p: nat, ents: seq<Index>) {
    && RootOk(t, g)
    && MapOk(m)
    && p in t && t[p].Inner? && Placed(g, p)
    && InnerOk(t, g, p, t[p].depth, ents)
    && forall a :: a in t && a != p ==> NodeOk(t, g, m, a)
  }

  ghost predicate CapOk(blockCap: nat, t: Tree) {
    forall a :: a in t ==>
      && t[a].cap == (if a == 0 then ROOT_CAP else blockCap)
      && (if t[a].Leaf? then |t[a].exts| else |t[a].ents|) <= t[a].cap
  }

  /** Every node but the root, and but a node `loose` not linked yet, hangs below its parent. */
  ghost predicate AllHang(t: Tree, g: Layout, loose: nat) {
    forall c :: c in t && c != 0 && c != loose ==> Hangs(t, g, c)
  }

  /** No leaf below the root is empty, except possibly `hollow`. */
  ghost predicate NonEmpty(t: Tree, hollow: nat) {
    forall a :: a in t && a != 0 && a != hollow ==> HasKey(t[a])
  }

  /** Where a range ends, another mapping (or the end of the file) begins; `k` is about to be mapped. */
  ghost predicate HiMapped(t: Tree, g: Layout, m: map<nat, nat>, k: nat) {
    forall a :: a in t && a in g.hi ==> g.hi[a] == EXT_MAX_BLOCKS || g.hi[a] in m || g.hi[a] == k
  }

  /** Sizes and links, while a split may be under way. */
  ghost predicate RestOk(blockCap: nat, t: Tree, g: Layout, m: map<nat, nat>, loose: nat, hollow: nat, k: nat) {
    && CapOk(blockCap, t)
    && AllHang(t, g, loose)
    && NonEmpty(t, hollow)
    && HiMapped(t, g, m, k)
  }

  ghost predicate TreeOk(blockCap: nat, t: Tree, g: Layout, m: map<nat, nat>) {
    && ShapeOk(t, g, m)
    && RestOk(blockCap, t, g, m, 0, 0, EXT_MAX_BLOCKS)
  }
}
