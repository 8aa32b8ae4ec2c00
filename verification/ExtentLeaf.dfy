/**
 * The contents of one leaf: putting a new extent between two others, merging it with
 * the extent before it, and the two merge tests of ext4_extent.c.
 */
module ExtentLeaf {
  import opened ExtentNodes
  import opened ExtentSteps

  /** The new extent continues `ex` both logically and on disk. */
  predicate CanAppend(ex: Extent, e: Extent) {
    && ex.start + ex.len == e.start
    && ex.len + e.len <= EXT_INIT_MAX_LEN
    && ex.first + ex.len == e.first
  }

  /** The new extent ends exactly where `ex` begins, both logically and on disk. */
  predicate CanPrepend(ex: Extent, e: Extent) {
    && e.start + e.len == ex.start
    && ex.len + e.len <= EXT_INIT_MAX_LEN
    && e.first + e.len == ex.first
  }

  function InsertExt(exts: seq<Extent>, at: nat, e: Extent): seq<Extent>
    requires at <= |exts|
  {
    exts[..at] + [e] + exts[at..]
  }

  function Appended(exts: seq<Extent>, p: nat, e: Extent): seq<Extent>
    requires p < |exts|
  {
    exts[p := Extent(exts[p].first, exts[p].len + e.len, exts[p].start)]
  }

  /** What the source does in its prepend branch: the physical start stays where it was. */
  function Prepended(exts: seq<Extent>, p: nat, e: Extent): seq<Extent>
    requires p < |exts|
  {
    exts[p := Extent(e.first, exts[p].len + e.len, exts[p].start)]
  }

  /** `e` fits into the free blocks of node `a`. */
  ghost predicate Fits(g: Layout, m: map<nat, nat>, a: nat, e: Extent) {
    && Placed(g, a)
    && 1 <= e.len <= EXT_INIT_MAX_LEN
    && g.lo[a] <= e.first && e.first + e.len <= g.hi[a]
    && forall x :: Covers(e, x) ==> x !in m
  }

  /** An extent of the leaf lies wholly before or wholly after the new one. */
  lemma Apart(g: Layout, m: map<nat, nat>, a: nat, f: Extent, e: Extent)
    requires Fits(g, m, a, e) && ExtentOk(g, m, a, f)
    ensures f.first < e.first ==> f.first + f.len <= e.first
    ensures e.first <= f.first ==> e.first + e.len <= f.first
  {
    assert Covers(f, f.first);
    assert Covers(e, e.first);
    assert f.first < e.first < f.first + f.len ==> Covers(f, e.first);
    assert e.first <= f.first < e.first + e.len ==> Covers(e, f.first);
  }

  lemma InsertExtAt(exts: seq<Extent>, at: nat, e: Extent, i: nat)
    requires at <= |exts| && i <= |exts|
    ensures InsertExt(exts, at, e)[i] == if i < at then exts[i] else if i == at then e else exts[i - 1]
  {
  }

  lemma InsertSorted(exts: seq<Extent>, at: nat, e: Extent)
    requires Sorted(exts) && at <= |exts|
    requires forall i :: 0 <= i < at ==> exts[i].first + exts[i].len <= e.first
    requires forall i :: at <= i < |exts| ==> e.first + e.len <= exts[i].first
    ensures Sorted(InsertExt(exts, at, e))
  {
    var v := InsertExt(exts, at, e);
    forall i, j | 0 <= i < j < |v| ensures v[i].first + v[i].len <= v[j].first {
      InsertExtAt(exts, at, e, i);
      InsertExtAt(exts, at, e, j);
    }
  }

  /** The old extents stay valid when the map grows by blocks that were free. */
  lemma StillOk(g: Layout, m: map<nat, nat>, a: nat, f: Extent, e: Extent)
    requires Fits(g, m, a, e) && ExtentOk(g, m, a, f)
    ensures ExtentOk(g, m + RangeMap(e), a, f)
  {
    forall x | Covers(f, x) ensures x in m + RangeMap(e) && (m + RangeMap(e))[x] == Phys(f, x) {
      assert x in m;
      assert !Covers(e, x);
    }
  }

  lemma NewOk(g: Layout, m: map<nat, nat>, a: nat, e: Extent)
    requires Fits(g, m, a, e)
    ensures ExtentOk(g, m + RangeMap(e), a, e)
  {
  }

  /** Every old extent lies on its side of the insertion point. */
  lemma Around(g: Layout, m: map<nat, nat>, a: nat, exts: seq<Extent>, at: nat, e: Extent, i: nat)
    requires Fits(g, m, a, e) && LeafOk(g, m, a, exts) && at <= |exts| && i < |exts|
    requires at > 0 ==> exts[at - 1].first < e.first
    requires at < |exts| ==> e.first <= exts[at].first
    ensures ExtentOk(g, m + RangeMap(e), a, exts[i])
    ensures i < at ==> exts[i].first + exts[i].len <= e.first
    ensures at <= i ==> e.first + e.len <= exts[i].first
  {
    assert ExtentOk(g, m, a, exts[i]);
    StillOk(g, m, a, exts[i], e);
    Apart(g, m, a, exts[i], e);
    assert i < at - 1 ==> exts[i].first + exts[i].len <= exts[at - 1].first;
    assert at < i ==> exts[at].first + exts[at].len <= exts[i].first;
  }

  lemma InsertCovers(m: map<nat, nat>, exts: seq<Extent>, at: nat, e: Extent, x: nat)
    requires at <= |exts|
    requires x in m ==> CoveredBy(exts, x)
    requires x in m + RangeMap(e)
    ensures CoveredBy(InsertExt(exts, at, e), x)
  {
    var v := InsertExt(exts, at, e);
    if x in m {
      var i :| 0 <= i < |exts| && Covers(exts[i], x);
      InsertExtAt(exts, at, e, if i < at then i else i + 1);
      assert Covers(v[if i < at then i else i + 1], x);
    } else {
      InsertExtAt(exts, at, e, at);
      assert Covers(v[at], x);
    }
  }

  /** Putting the new extent at its place extends the leaf's part of the map by exactly its range. */
  lemma InsertExtKeeps(g: Layout, m: map<nat, nat>, a: nat, exts: seq<Extent>, at: nat, e: Extent)
    requires Fits(g, m, a, e) && LeafOk(g, m, a, exts) && at <= |exts|
    requires at > 0 ==> exts[at - 1].first < e.first
    requires at < |exts| ==> e.first <= exts[at].first
    ensures LeafOk(g, m + RangeMap(e), a, InsertExt(exts, at, e))
  {
    var v, m' := InsertExt(exts, at, e), m + RangeMap(e);
    forall i | 0 <= i < |exts|
      ensures i < at ==> exts[i].first + exts[i].len <= e.first
      ensures at <= i ==> e.first + e.len <= exts[i].first
    {
      Around(g, m, a, exts, at, e, i);
    }
    InsertSorted(exts, at, e);
    forall i | 0 <= i < |v| ensures ExtentOk(g, m', a, v[i]) {
      InsertExtAt(exts, at, e, i);
      if i == at {
        NewOk(g, m, a, e);
      } else {
        Around(g, m, a, exts, at, e, if i < at then i else i - 1);
      }
    }
    forall x | x in m' && g.lo[a] <= x < g.hi[a] ensures CoveredBy(v, x) {
      InsertCovers(m, exts, at, e, x);
    }
  }

  lemma AppendedExtent(g: Layout, m: map<nat, nat>, a: nat, f: Extent, e: Extent)
    requires Fits(g, m, a, e) && ExtentOk(g, m, a, f) && CanAppend(f, e)
    ensures ExtentOk(g, m + RangeMap(e), a, Extent(f.first, f.len + e.len, f.start))
  {
    var f', m' := Extent(f.first, f.len + e.len, f.start), m + RangeMap(e);
    forall x | Covers(f', x) ensures x in m' && m'[x] == Phys(f', x) {
      assert Covers(f, x) || Covers(e, x);
      assert Covers(f, x) ==> x in m && !Covers(e, x);
    }
  }

  /** Merging with the extent before it has the same effect on the map. */
  lemma AppendKeeps(g: Layout, m: map<nat, nat>, a: nat, exts: seq<Extent>, p: nat, e: Extent)
    requires Fits(g, m, a, e) && LeafOk(g, m, a, exts) && p < |exts|
    requires CanAppend(exts[p], e)
    ensures LeafOk(g, m + RangeMap(e), a, Appended(exts, p, e))
  {
    var v, m' := Appended(exts, p, e), m + RangeMap(e);
    assert ExtentOk(g, m, a, exts[p]);
    AppendedExtent(g, m, a, exts[p], e);
    forall i | 0 <= i < |v|
      ensures ExtentOk(g, m', a, v[i])
      ensures p < i ==> e.first + e.len <= exts[i].first
    {
      assert ExtentOk(g, m, a, exts[i]);
      StillOk(g, m, a, exts[i], e);
      Apart(g, m, a, exts[i], e);
      assert p < i ==> exts[p].first + exts[p].len <= exts[i].first;
    }
    forall x | x in m' && g.lo[a] <= x < g.hi[a] ensures CoveredBy(v, x) {
      if x in m {
        assert CoveredBy(exts, x);
        var i :| 0 <= i < |exts| && Covers(exts[i], x);
        assert Covers(v[i], x);
      } else {
        assert Covers(v[p], x);
      }
    }
  }
}
