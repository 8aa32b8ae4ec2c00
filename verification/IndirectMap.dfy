/**
 * The block map of an ext2-style inode: twelve direct references and three trees of
 * indirect blocks, one, two and three levels deep.
 */
module IndirectMap {
  import opened Arithmetic

  const DIRECT: nat := 12

  /** Direct references, the three indirect ones, and the contents of the indirect blocks. */
  datatype BlockMap = BlockMap(direct: seq<nat>, ind: seq<nat>, mem: map<nat, seq<nat>>)

  /** The place of an indirect block: which tree, and the way from its root. */
  datatype Place = Place(level: nat, way: seq<nat>)

  // ----- level limits and offsets -----

  /** Data blocks below one reference at the given level. */
  function Per(n: nat, level: nat): nat {
    if level == 0 then 1 else Per(n, level - 1) * n
  }

  /** First logical block that is not below the given level. */
  function Limit(n: nat, level: nat): nat {
    if level == 0 then DIRECT else Limit(n, level - 1) + Per(n, level)
  }

  /** The indexes to follow, from the root of a tree of the given level, for offset `b` in it. */
  function Way(n: nat, level: nat, b: nat): seq<nat>
    requires n > 0
  {
    if level == 0 then []
    else PerPositive(n, level - 1); [b / Per(n, level - 1)] + Way(n, level - 1, b % Per(n, level - 1))
  }

  function Offset(n: nat, way: seq<nat>): nat {
    if way == [] then 0 else way[0] * Per(n, |way| - 1) + Offset(n, way[1..])
  }

  lemma {:induction false} PerPositive(n: nat, level: nat)
    requires n > 0
    ensures Per(n, level) > 0
  {
    if level > 0 {
      PerPositive(n, level - 1);
    }
  }

  ghost predicate WayOk(n: nat, way: seq<nat>) {
    forall i :: 0 <= i < |way| ==> way[i] < n
  }

  lemma DivBound(b: nat, p: nat, n: nat)
    requires p > 0 && b < p * n
    ensures b / p < n && b % p < p && b / p * p + b % p == b
  {
    if b / p >= n {
      MulMono(n, b / p, p);
    }
  }

  /** The decomposition is correct: the indexes are in range and lead back to the offset. */
  lemma {:induction false} WayIs(n: nat, level: nat, b: nat)
    requires n > 0 && b < Per(n, level)
    ensures |Way(n, level, b)| == level && WayOk(n, Way(n, level, b)) && Offset(n, Way(n, level, b)) == b
  {
    if level > 0 {
      var p := Per(n, level - 1);
      PerPositive(n, level - 1);
      DivBound(b, p, n);
      WayIs(n, level - 1, b % p);
    }
  }

  /** The level of a logical block: 0 for direct ones, 4 for blocks beyond the map. */
  function LevelOf(n: nat, x: nat): nat {
    if x < DIRECT then 0
    else if x < Limit(n, 1) then 1
    else if x < Limit(n, 2) then 2
    else if x < Limit(n, 3) then 3
    else 4
  }

  function WayOf(n: nat, x: nat): seq<nat>
    requires n > 0 && 1 <= LevelOf(n, x) <= 3
  {
    Way(n, LevelOf(n, x), x - Limit(n, LevelOf(n, x) - 1))
  }

  lemma WayOfIs(n: nat, x: nat)
    requires n > 0 && 1 <= LevelOf(n, x) <= 3
    ensures |WayOf(n, x)| == LevelOf(n, x) && WayOk(n, WayOf(n, x))
    ensures Offset(n, WayOf(n, x)) == x - Limit(n, LevelOf(n, x) - 1)
  {
    WayIs(n, LevelOf(n, x), x - Limit(n, LevelOf(n, x) - 1));
  }

  /** Different logical blocks have different levels or ways. */
  lemma WayInjective(n: nat, x: nat, y: nat)
    requires n > 0 && 1 <= LevelOf(n, x) <= 3 && 1 <= LevelOf(n, y) <= 3
    requires LevelOf(n, x) == LevelOf(n, y) && WayOf(n, x) == WayOf(n, y)
    ensures x == y
  {
    WayOfIs(n, x);
    WayOfIs(n, y);
  }

  // ----- following references -----

  function Entry(mem: map<nat, seq<nat>>, a: nat, i: nat): nat {
    if a != 0 && a in mem && i < |mem[a]| then mem[a][i] else 0
  }

  /** The address reached from the root of a tree, 0 where a reference is missing. */
  function At(m: BlockMap, level: nat, way: seq<nat>): nat
    requires 1 <= level <= |m.ind|
  {
    if way == [] then m.ind[level - 1]
    else Entry(m.mem, At(m, level, way[..|way| - 1]), way[|way| - 1])
  }

  ghost predicate Shape(m: BlockMap) {
    |m.direct| == DIRECT && |m.ind| == 3
  }

  /** What the map says about logical block `x`. */
  function Lookup(n: nat, m: BlockMap, x: nat): nat
    requires n > 0 && |m.direct| == DIRECT && |m.ind| == 3
  {
    var l := LevelOf(n, x);
    if l == 0 then m.direct[x] else if l == 4 then 0 else At(m, l, WayOf(n, x))
  }

  /** The first logical block that no inode can map. */
  function End(n: nat): nat {
    12 + n + n * n + n * n * n
  }

  /** The same, reference by reference: twelve direct ones, then one, two and three indirect blocks deep. */
  function Answer(n: nat, m: BlockMap, x: nat): nat
    requires n > 0 && |m.direct| == 12 && |m.ind| == 3
  {
    if x < 12 then m.direct[x]
    else if x < 12 + n then Entry(m.mem, m.ind[0], x - 12)
    else if x < 12 + n + n * n then Double(n, m, x - 12 - n)
    else if x < End(n) then Triple(n, m, x - 12 - n - n * n)
    else 0
  }

  function Double(n: nat, m: BlockMap, o: nat): nat
    requires n > 0 && |m.ind| == 3
  {
    Entry(m.mem, Entry(m.mem, m.ind[1], o / n), o % n)
  }

  function Triple(n: nat, m: BlockMap, o: nat): nat
    requires n > 0 && |m.ind| == 3
  {
    assert n * n > 0;
    Entry(m.mem, Entry(m.mem, Entry(m.mem, m.ind[2], o / (n * n)), o % (n * n) / n), o % (n * n) % n)
  }

  lemma Limits(n: nat)
    ensures Per(n, 0) == 1 && Per(n, 1) == n && Per(n, 2) == n * n && Per(n, 3) == n * n * n
    ensures Limit(n, 0) == 12 && Limit(n, 1) == 12 + n && Limit(n, 2) == 12 + n + n * n && Limit(n, 3) == End(n)
  {
  }

  lemma WayOne(n: nat, b: nat)
    requires n > 0 && b < n
    ensures Way(n, 1, b) == [b]
  {
    Limits(n);
    assert Way(n, 0, 0) == [];
  }

  lemma WayTwo(n: nat, b: nat)
    requires n > 0 && b < n * n
    ensures Way(n, 2, b) == [b / n, b % n]
  {
    Limits(n);
    WayOne(n, b % n);
  }

  lemma WayThree(n: nat, b: nat)
    requires n > 0 && n * n > 0
    ensures Way(n, 3, b) == [b / (n * n), b % (n * n) / n, b % (n * n) % n]
  {
    Limits(n);
    WayTwo(n, b % (n * n));
  }

  lemma AtOne(m: BlockMap, l: nat, i: nat)
    requires 1 <= l <= |m.ind|
    ensures At(m, l, [i]) == Entry(m.mem, m.ind[l - 1], i)
  {
    assert [i][..0] == [];
  }

  lemma AtTwo(m: BlockMap, l: nat, i: nat, j: nat)
    requires 1 <= l <= |m.ind|
    ensures At(m, l, [i, j]) == Entry(m.mem, Entry(m.mem, m.ind[l - 1], i), j)
  {
    assert [i, j][..1] == [i];
    AtOne(m, l, i);
  }

  lemma AtThree(m: BlockMap, l: nat, i: nat, j: nat, k: nat)
    requires 1 <= l <= |m.ind|
    ensures At(m, l, [i, j, k]) == Entry(m.mem, Entry(m.mem, Entry(m.mem, m.ind[l - 1], i), j), k)
  {
    assert [i, j, k][..2] == [i, j];
    AtTwo(m, l, i, j);
  }

  lemma DoubleIs(n: nat, m: BlockMap, o: nat)
    requires n > 0 && Shape(m) && o < n * n
    ensures At(m, 2, Way(n, 2, o)) == Double(n, m, o)
  {
    hide At, Entry, Way;
    WayTwo(n, o);
    AtTwo(m, 2, o / n, o % n);
  }

  lemma TripleIs(n: nat, m: BlockMap, o: nat)
    requires n > 0 && n * n > 0 && Shape(m)
    ensures At(m, 3, Way(n, 3, o)) == Triple(n, m, o)
  {
    hide At, Entry, Way;
    WayThree(n, o);
    AtThree(m, 3, o / (n * n), o % (n * n) / n, o % (n * n) % n);
  }

  /** Levels and ways lead to the right reference. */
  lemma LookupIs(n: nat, m: BlockMap, x: nat)
    requires n > 0 && Shape(m)
    ensures Lookup(n, m, x) == Answer(n, m, x) && (LevelOf(n, x) == 4 <==> x >= End(n))
  {
    Limits(n);
    hide Way, At, Entry, Per, Limit, Double, Triple;
    var nn, nnn := n * n, n * n * n;
    assert nn > 0 && nnn > 0 && End(n) == 12 + n + nn + nnn;
    hide End;
    if 12 <= x < 12 + n {
      WayOne(n, x - 12);
      AtOne(m, 1, x - 12);
    } else if 12 + n <= x < 12 + n + nn {
      DoubleIs(n, m, x - 12 - n);
    } else if 12 + n + nn <= x {
      TripleIs(n, m, x - 12 - n - nn);
    }
  }

  /** Every indirect block has one place, so the references form trees. */
  ghost predicate TreeOk(n: nat, m: BlockMap, place: map<nat, Place>) {
    && Shape(m) && n > 0 && 0 !in place
    && forall l, w :: 1 <= l <= 3 && |w| < l && WayOk(n, w) ==> Rooted(n, m, place, l, w)
  }

  ghost predicate Rooted(n: nat, m: BlockMap, place: map<nat, Place>, l: nat, w: seq<nat>)
    requires Shape(m) && 1 <= l <= 3
  {
    var a := At(m, l, w);
    a != 0 ==> a in place && place[a] == Place(l, w) && a in m.mem && |m.mem[a]| == n
  }

  lemma WayPrefix(n: nat, w: seq<nat>)
    requires WayOk(n, w) && w != []
    ensures WayOk(n, w[..|w| - 1]) && w[|w| - 1] < n
  {
  }

  // ----- writing one reference -----

  function Put(s: seq<nat>, i: nat, x: nat): seq<nat>
    requires i < |s|
  {
    s[i := x]
  }

  function Written(m: BlockMap, a: nat, i: nat, x: nat): BlockMap
    requires a in m.mem && i < |m.mem[a]|
  {
    m.(mem := m.mem[a := Put(m.mem[a], i, x)])
  }

  /** Writing entry `i` of the block at way `w` changes nothing except behind that entry. */
  lemma {:induction false} WriteApart(n: nat, m: BlockMap, place: map<nat, Place>, l: nat, w: seq<nat>, i: nat,
                                      x: nat, l': nat, q: seq<nat>)
    requires TreeOk(n, m, place) && 1 <= l <= 3 && |w| < l && WayOk(n, w) && i < n && At(m, l, w) != 0
    requires 1 <= l' <= 3 && |q| <= l' && WayOk(n, q) && !(l' == l && w + [i] <= q)
    ensures Rooted(n, m, place, l, w)
    ensures At(Written(m, At(m, l, w), i, x), l', q) == At(m, l', q)
    decreases |q|
  {
    var a := At(m, l, w);
    assert Rooted(n, m, place, l, w);
    if q != [] {
      var q0, j := q[..|q| - 1], q[|q| - 1];
      WayPrefix(n, q);
      assert w + [i] <= q0 ==> w + [i] <= q;
      WriteApart(n, m, place, l, w, i, x, l', q0);
      assert Rooted(n, m, place, l', q0);
      assert q == q0 + [j];
    }
  }

  /** Where nothing is reached, nothing behind is reached either. */
  lemma {:induction false} NothingBehind(m: BlockMap, l: nat, w: seq<nat>, q: seq<nat>)
    requires Shape(m) && 1 <= l <= 3 && w <= q && At(m, l, w) == 0
    ensures At(m, l, q) == 0
    decreases |q|
  {
    if |w| < |q| {
      NothingBehind(m, l, w, q[..|q| - 1]);
    } else {
      assert w == q;
    }
  }

  /** A fresh block filled with zeros at way `w`: behind it there is nothing. */
  lemma {:induction false} ZerosBehind(m: BlockMap, l: nat, w: seq<nat>, q: seq<nat>)
    requires Shape(m) && 1 <= l <= 3 && w < q
    requires At(m, l, w) in m.mem
    requires forall i :: 0 <= i < |m.mem[At(m, l, w)]| ==> m.mem[At(m, l, w)][i] == 0
    ensures At(m, l, q) == 0
    decreases |q|
  {
    var q0 := q[..|q| - 1];
    if w < q0 {
      ZerosBehind(m, l, w, q0);
    } else {
      assert q0 == w;
    }
  }

  function Zeros(n: nat): seq<nat> {
    seq(n, i => 0)
  }

  // ----- a new indirect block -----

  /** A new block as the root of a tree. */
  function WithRoot(n: nat, m: BlockMap, l: nat, r: nat): BlockMap
    requires 1 <= l <= |m.ind|
  {
    m.(ind := m.ind[l - 1 := r], mem := m.mem[r := Zeros(n)])
  }

  /** A new block below entry `i` of block `a`. */
  function WithBranch(n: nat, m: BlockMap, a: nat, i: nat, r: nat): BlockMap
    requires a in m.mem && i < |m.mem[a]| && a != r
  {
    Written(m.(mem := m.mem[r := Zeros(n)]), a, i, r)
  }

  /** An unused block in memory does not matter. */
  lemma {:induction false} FreshMem(n: nat, m: BlockMap, place: map<nat, Place>, r: nat, z: seq<nat>, l: nat,
                                    q: seq<nat>)
    requires TreeOk(n, m, place) && r !in place && 1 <= l <= 3 && |q| <= l && WayOk(n, q)
    ensures At(m.(mem := m.mem[r := z]), l, q) == At(m, l, q)
    decreases |q|
  {
    if q != [] {
      WayPrefix(n, q);
      FreshMem(n, m, place, r, z, l, q[..|q| - 1]);
      assert Rooted(n, m, place, l, q[..|q| - 1]);
    }
  }

  lemma {:induction false} OtherRoot(m: BlockMap, m': BlockMap, l: nat, q: seq<nat>)
    requires Shape(m) && Shape(m') && m'.mem == m.mem && 1 <= l <= 3 && m'.ind[l - 1] == m.ind[l - 1]
    ensures At(m', l, q) == At(m, l, q)
    decreases |q|
  {
    if q != [] {
      OtherRoot(m, m', l, q[..|q| - 1]);
    }
  }

  lemma RootAt(n: nat, m: BlockMap, place: map<nat, Place>, l: nat, r: nat, l': nat, q: seq<nat>)
    requires TreeOk(n, m, place) && 1 <= l <= 3 && m.ind[l - 1] == 0 && r != 0 && r !in place
    requires 1 <= l' <= 3 && |q| <= l' && WayOk(n, q)
    ensures At(WithRoot(n, m, l, r), l', q) == if l' == l && q == [] then r else At(m, l', q)
  {
    var m1 := m.(mem := m.mem[r := Zeros(n)]);
    var m' := WithRoot(n, m, l, r);
    FreshMem(n, m, place, r, Zeros(n), l', q);
    if l' != l {
      OtherRoot(m1, m', l', q);
    } else if q != [] {
      assert [] < q && At(m', l, []) == r;
      ZerosBehind(m', l, [], q);
      NothingBehind(m, l, [], q);
    }
  }

  /** A new root keeps the trees and every answer. */
  lemma RootKeeps(n: nat, m: BlockMap, place: map<nat, Place>, l: nat, r: nat)
    requires TreeOk(n, m, place) && 1 <= l <= 3 && m.ind[l - 1] == 0 && r != 0 && r !in place
    ensures TreeOk(n, WithRoot(n, m, l, r), place[r := Place(l, [])])
    ensures forall x :: 0 <= x ==> Lookup(n, WithRoot(n, m, l, r), x) == Lookup(n, m, x)
  {
    var m', place' := WithRoot(n, m, l, r), place[r := Place(l, [])];
    forall l', w | 1 <= l' <= 3 && |w| < l' && WayOk(n, w) ensures Rooted(n, m', place', l', w) {
      RootAt(n, m, place, l, r, l', w);
      assert Rooted(n, m, place, l', w);
    }
    forall x: nat ensures Lookup(n, m', x) == Lookup(n, m, x) {
      if 1 <= LevelOf(n, x) <= 3 {
        WayOfIs(n, x);
        RootAt(n, m, place, l, r, LevelOf(n, x), WayOf(n, x));
      }
    }
  }

  lemma BranchAt(n: nat, m: BlockMap, place: map<nat, Place>, l: nat, w: seq<nat>, i: nat, r: nat, l': nat, q: seq<nat>)
    requires TreeOk(n, m, place) && 1 <= l <= 3 && |w| + 1 < l && WayOk(n, w) && i < n && At(m, l, w) != 0
    requires At(m, l, w + [i]) == 0 && r != 0 && r !in place
    requires 1 <= l' <= 3 && |q| <= l' && WayOk(n, q)
    ensures Rooted(n, m, place, l, w)
    ensures At(WithBranch(n, m, At(m, l, w), i, r), l', q) == if l' == l && q == w + [i] then r else At(m, l', q)
  {
    assert Rooted(n, m, place, l, w);
    var a := At(m, l, w);
    var m1 := m.(mem := m.mem[r := Zeros(n)]);
    var m' := WithBranch(n, m, a, i, r);
    FreshTree(n, m, place, r);
    FreshMem(n, m, place, r, Zeros(n), l, w);
    FreshMem(n, m, place, r, Zeros(n), l', q);
    if l' == l && w + [i] <= q {
      WriteApart(n, m1, place, l, w, i, r, l, w);
      assert (w + [i])[..|w|] == w;
      assert At(m', l, w + [i]) == r;
      if w + [i] < q {
        ZerosBehind(m', l, w + [i], q);
        NothingBehind(m, l, w + [i], q);
      }
    } else {
      WriteApart(n, m1, place, l, w, i, r, l', q);
    }
  }

  lemma FreshTree(n: nat, m: BlockMap, place: map<nat, Place>, r: nat)
    requires TreeOk(n, m, place) && r !in place
    ensures TreeOk(n, m.(mem := m.mem[r := Zeros(n)]), place)
  {
    var m1 := m.(mem := m.mem[r := Zeros(n)]);
    forall l, w | 1 <= l <= 3 && |w| < l && WayOk(n, w) ensures Rooted(n, m1, place, l, w) {
      FreshMem(n, m, place, r, Zeros(n), l, w);
      assert Rooted(n, m, place, l, w);
    }
  }

  /** A new branch keeps the trees and every answer. */
  lemma BranchKeeps(n: nat, m: BlockMap, place: map<nat, Place>, l: nat, w: seq<nat>, i: nat, r: nat)
    requires TreeOk(n, m, place) && 1 <= l <= 3 && |w| + 1 < l && WayOk(n, w) && i < n && At(m, l, w) != 0
    requires At(m, l, w + [i]) == 0 && r != 0 && r !in place
    ensures Rooted(n, m, place, l, w)
    ensures var m' := WithBranch(n, m, At(m, l, w), i, r);
      && TreeOk(n, m', place[r := Place(l, w + [i])])
      && (forall x :: 0 <= x ==> Lookup(n, m', x) == Lookup(n, m, x))
      && At(m', l, w + [i]) == r
  {
    assert Rooted(n, m, place, l, w);
    var a := At(m, l, w);
    var m', place' := WithBranch(n, m, a, i, r), place[r := Place(l, w + [i])];
    forall l', q | 1 <= l' <= 3 && |q| < l' && WayOk(n, q) ensures Rooted(n, m', place', l', q) {
      BranchAt(n, m, place, l, w, i, r, l', q);
      assert Rooted(n, m, place, l', q);
    }
    forall x: nat ensures Lookup(n, m', x) == Lookup(n, m, x) {
      if 1 <= LevelOf(n, x) <= 3 {
        WayOfIs(n, x);
        BranchAt(n, m, place, l, w, i, r, LevelOf(n, x), WayOf(n, x));
      }
    }
    BranchAt(n, m, place, l, w, i, r, l, w + [i]);
  }

  // ----- a data reference -----

  lemma LeafAt(n: nat, m: BlockMap, place: map<nat, Place>, l: nat, w: seq<nat>, i: nat, x: nat, l': nat, q: seq<nat>)
    requires TreeOk(n, m, place) && 1 <= l <= 3 && |w| + 1 == l && WayOk(n, w) && i < n && At(m, l, w) != 0
    requires 1 <= l' <= 3 && |q| <= l' && WayOk(n, q)
    ensures Rooted(n, m, place, l, w)
    ensures At(Written(m, At(m, l, w), i, x), l', q) == if l' == l && q == w + [i] then x else At(m, l', q)
  {
    assert Rooted(n, m, place, l, w);
    if l' == l && w + [i] <= q {
      assert q == w + [i] && q[..|q| - 1] == w;
      WriteApart(n, m, place, l, w, i, x, l, w);
    } else {
      WriteApart(n, m, place, l, w, i, x, l', q);
    }
  }

  /** Writing the reference of logical block `x` changes the answer for `x` alone. */
  lemma LeafKeeps(n: nat, m: BlockMap, place: map<nat, Place>, x: nat, w: seq<nat>, i: nat, b: nat)
    requires TreeOk(n, m, place) && 1 <= LevelOf(n, x) <= 3 && WayOf(n, x) == w + [i] && At(m, LevelOf(n, x), w) != 0
    ensures |w| + 1 == LevelOf(n, x) && i < n && WayOk(n, w) && Rooted(n, m, place, LevelOf(n, x), w)
    ensures var m' := Written(m, At(m, LevelOf(n, x), w), i, b);
      && TreeOk(n, m', place)
      && forall y :: 0 <= y ==> Lookup(n, m', y) == if y == x then b else Lookup(n, m, y)
  {
    var l := LevelOf(n, x);
    WayOfIs(n, x);
    assert WayOf(n, x)[|w|] == i;
    assert forall k :: 0 <= k < |w| ==> w[k] == WayOf(n, x)[k];
    assert Rooted(n, m, place, l, w);
    var m' := Written(m, At(m, l, w), i, b);
    forall l', q | 1 <= l' <= 3 && |q| < l' && WayOk(n, q) ensures Rooted(n, m', place, l', q) {
      LeafAt(n, m, place, l, w, i, b, l', q);
      assert Rooted(n, m, place, l', q);
    }
    forall y: nat ensures Lookup(n, m', y) == if y == x then b else Lookup(n, m, y) {
      if 1 <= LevelOf(n, y) <= 3 {
        WayOfIs(n, y);
        LeafAt(n, m, place, l, w, i, b, LevelOf(n, y), WayOf(n, y));
        if LevelOf(n, y) == l && WayOf(n, y) == w + [i] {
          WayInjective(n, x, y);
        }
      }
    }
  }

  // ----- indirect blocks as a set -----

  ghost predicate IsIndirect(n: nat, m: BlockMap, a: nat)
    requires Shape(m)
  {
    a != 0 && exists l, w :: 1 <= l <= 3 && |w| < l && WayOk(n, w) && At(m, l, w) == a
  }

  /** The indirect blocks are the same; only data references may differ. */
  ghost predicate SameTrees(n: nat, m: BlockMap, m': BlockMap)
    requires Shape(m) && Shape(m')
  {
    forall l, w :: 1 <= l <= 3 && |w| < l && WayOk(n, w) ==> At(m', l, w) == At(m, l, w)
  }
}
