/**
 * The ext4 block cache: buffers indexed by address, unreferenced ones also in LRU order, and
 * a list of dirty buffers that wait to be written.  It behaves like a plain disk.
 */
module BlockCache {
  import opened Lists

  type Data = seq<int>

  datatype Err = EOK | ENXIO

  datatype Buf = Buf(uptodate: bool, dirty: bool, flush: bool, tmp: bool, data: Data,
                     lruId: nat, refs: nat, onList: bool)

  function Without(s: seq<nat>, a: nat): seq<nat> {
    if s == [] then [] else if s[0] == a then s[1..] else [s[0]] + Without(s[1..], a)
  }

  lemma {:induction false} WithoutIs(s: seq<nat>, a: nat)
    requires Distinct(s)
    ensures Distinct(Without(s, a)) && a !in Without(s, a)
    ensures forall b :: b in Without(s, a) <==> b in s && b != a
    ensures |Without(s, a)| == if a in s then |s| - 1 else |s|
  {
    if s != [] {
      var rest := s[1..];
      assert s == [s[0]] + rest && s[0] !in rest;
      WithoutIs(rest, a);
      if s[0] != a {
        DistinctCons(s[0], Without(rest, a));
      }
    }
  }

  lemma DistinctCons(a: nat, s: seq<nat>)
    requires Distinct(s) && a !in s
    ensures Distinct([a] + s)
  {
  }

  /** Cache and disk together. */
  datatype State = State(bufs: map<nat, Buf>, lru: set<nat>, dirtyList: seq<nat>, lruCtr: nat,
                         writeBack: nat, disk: map<nat, Data>)

  /** What is known of the buffer for address `a`; `listed` says whether a waiting dirty buffer must be on the list. */
  ghost predicate BufOk(s: State, a: nat, listed: bool)
    requires a in s.bufs
  {
    var b := s.bufs[a];
    && a in s.disk
    && (b.dirty ==> b.uptodate)
    && (b.uptodate && !b.dirty ==> b.data == s.disk[a])
    && (a in s.lru <==> b.refs == 0)
    && (b.onList <==> a in s.dirtyList)
    && (b.onList ==> b.dirty && b.refs == 0)
    && (listed && b.refs == 0 && b.dirty ==> b.onList)
    && b.lruId <= s.lruCtr
  }

  /** All buffers are in order, except that dirty buffer `x` may be missing on the list. */
  ghost predicate OkBut(s: State, x: nat) {
    && (forall a :: a in s.bufs ==> BufOk(s, a, a != x))
    && (forall a, b :: a in s.bufs && b in s.bufs && a != b ==> s.bufs[a].lruId != s.bufs[b].lruId)
    && s.lru <= s.bufs.Keys
    && Distinct(s.dirtyList) && (forall i :: 0 <= i < |s.dirtyList| ==> s.dirtyList[i] in s.bufs)
    && (s.writeBack == 0 ==> s.dirtyList == [])
  }

  ghost predicate Ok(s: State) {
    OkBut(s, 0) && (0 in s.bufs ==> BufOk(s, 0, true))
  }

  /** The disk as users of the cache see it. */
  ghost function View(s: State): map<nat, Data> {
    map a | a in s.disk :: if a in s.bufs && s.bufs[a].uptodate then s.bufs[a].data else s.disk[a]
  }

  lemma OkIs(s: State, x: nat)
    requires OkBut(s, x) && (x in s.bufs ==> BufOk(s, x, true))
    ensures Ok(s)
  {
    forall a | a in s.bufs ensures BufOk(s, a, true) {
      assert BufOk(s, a, a != x);
    }
  }

  lemma OkAt(s: State, a: nat)
    requires Ok(s) && a in s.bufs
    ensures BufOk(s, a, true)
  {
    assert BufOk(s, a, a != 0);
  }

  lemma OkBut2(s: State, x: nat)
    requires Ok(s)
    ensures OkBut(s, x)
  {
    forall a | a in s.bufs ensures BufOk(s, a, a != x) {
      OkAt(s, a);
    }
  }

  // ----- changing one buffer -----

  ghost predicate SameAt(s: State, s': State, c: nat) {
    && (c in s'.bufs <==> c in s.bufs) && (c in s.bufs ==> s'.bufs[c] == s.bufs[c])
    && (c in s'.lru <==> c in s.lru) && (c in s'.dirtyList <==> c in s.dirtyList)
    && (c in s'.disk <==> c in s.disk) && (c in s.disk ==> s'.disk[c] == s.disk[c])
  }

  /** Only address `a` is concerned. */
  ghost predicate OnlyAt(s: State, s': State, a: nat) {
    && (forall c :: c != a ==> SameAt(s, s', c))
    && s.lruCtr <= s'.lruCtr && s'.writeBack == s.writeBack
    && (a in s'.disk <==> a in s.disk)
    && Distinct(s'.dirtyList)
    && (a in s'.lru || a in s'.dirtyList ==> a in s'.bufs)
    && (s'.writeBack == 0 ==> s'.dirtyList == [])
    && (a in s'.bufs ==> (a in s.bufs && s'.bufs[a].lruId == s.bufs[a].lruId) || s'.bufs[a].lruId > s.lruCtr)
  }

  lemma OneBuf(s: State, s': State, a: nat, c: nat)
    requires OkBut(s, a) && OnlyAt(s, s', a) && c in s'.bufs && c != a
    ensures BufOk(s', c, true) && c in s.bufs && s'.bufs[c] == s.bufs[c]
  {
    assert SameAt(s, s', c);
    assert BufOk(s, c, true);
  }

  lemma OneChanged(s: State, s': State, a: nat)
    requires OkBut(s, a) && OnlyAt(s, s', a) && (a in s'.bufs ==> BufOk(s', a, false))
    ensures OkBut(s', a)
  {
    forall c | c in s'.bufs && c != a ensures BufOk(s', c, true) && c in s.bufs && s'.bufs[c] == s.bufs[c] {
      OneBuf(s, s', a, c);
    }
    hide BufOk;
    forall c, d | c in s'.bufs && d in s'.bufs && c != d ensures s'.bufs[c].lruId != s'.bufs[d].lruId {
      IdApart(s, s', a, c, d);
    }
    forall c | c in s'.lru ensures c in s'.bufs {
      assert c != a ==> SameAt(s, s', c);
    }
    forall i | 0 <= i < |s'.dirtyList| ensures s'.dirtyList[i] in s'.bufs {
      Listed(s, s', a, i);
    }
  }

  lemma Listed(s: State, s': State, a: nat, i: nat)
    requires OkBut(s, a) && OnlyAt(s, s', a) && i < |s'.dirtyList|
    ensures s'.dirtyList[i] in s'.bufs
  {
    var c := s'.dirtyList[i];
    if c != a {
      assert SameAt(s, s', c);
      var k :| 0 <= k < |s.dirtyList| && s.dirtyList[k] == c;
    }
  }

  lemma IdApart(s: State, s': State, a: nat, c: nat, d: nat)
    requires OkBut(s, a) && OnlyAt(s, s', a) && c in s'.bufs && d in s'.bufs && c != d
    ensures s'.bufs[c].lruId != s'.bufs[d].lruId
  {
    assert c != a ==> SameAt(s, s', c);
    assert d != a ==> SameAt(s, s', d);
    assert c != a ==> BufOk(s, c, true);
    assert d != a ==> BufOk(s, d, true);
  }

  /** What users see changes at most at `a`. */
  lemma ViewAt(s: State, s': State, a: nat)
    requires OnlyAt(s, s', a)
    ensures a in s.disk ==> a in View(s) && a in View(s') && View(s') == View(s)[a := View(s')[a]]
    ensures a !in s.disk ==> View(s') == View(s)
  {
    forall c | c != a ensures (c in View(s') <==> c in View(s)) && (c in View(s) ==> View(s')[c] == View(s)[c]) {
      assert SameAt(s, s', c);
    }
  }

  lemma SameView(s: State, s': State, a: nat)
    requires OnlyAt(s, s', a) && (a in s.disk ==> a in View(s) && a in View(s') && View(s')[a] == View(s)[a])
    ensures View(s') == View(s)
  {
    ViewAt(s, s', a);
  }

  // ----- one buffer -----

  /** Write the buffer to disk if it is dirty. */
  function Flushed(s: State, a: nat): State
    requires a in s.bufs
  {
    var b := s.bufs[a];
    if b.dirty && b.uptodate then
      s.(disk := s.disk[a := b.data],
         dirtyList := if b.onList then Without(s.dirtyList, a) else s.dirtyList,
         bufs := s.bufs[a := b.(onList := false, dirty := false)])
    else s
  }

  lemma FlushKeeps(s: State, a: nat)
    requires OkBut(s, a) && a in s.bufs
    ensures Ok(Flushed(s, a)) && View(Flushed(s, a)) == View(s)
    ensures a in View(s) && Flushed(s, a).disk[a] == View(s)[a]
    ensures a in s.dirtyList ==> |Flushed(s, a).dirtyList| < |s.dirtyList|
  {
    assert BufOk(s, a, false);
    WithoutIs(s.dirtyList, a);
    var s' := Flushed(s, a);
    assert OnlyAt(s, s', a);
    SameView(s, s', a);
    OneChanged(s, s', a);
    OkIs(s', a);
  }

  /** Remove an unreferenced buffer. */
  function Dropped(s: State, a: nat): State
    requires a in s.bufs
  {
    s.(lru := s.lru - {a}, bufs := s.bufs - {a},
       dirtyList := if s.bufs[a].dirty && s.bufs[a].onList then Without(s.dirtyList, a) else s.dirtyList)
  }

  lemma DropKeeps(s: State, a: nat)
    requires Ok(s) && a in s.bufs
    ensures Ok(Dropped(s, a))
    ensures !s.bufs[a].dirty ==> View(Dropped(s, a)) == View(s)
  {
    OkAt(s, a);
    OkBut2(s, a);
    WithoutIs(s.dirtyList, a);
    var s' := Dropped(s, a);
    assert OnlyAt(s, s', a);
    OneChanged(s, s', a);
    OkIs(s', a);
    if !s.bufs[a].dirty {
      SameView(s, s', a);
    }
  }

  // ----- taking and releasing buffers -----

  /** One more reference to a cached buffer; an unreferenced one leaves the LRU index and the dirty list. */
  function Found(s: State, a: nat): State
    requires a in s.bufs
  {
    var b := s.bufs[a];
    if b.refs == 0 then
      s.(lruCtr := s.lruCtr + 1, lru := s.lru - {a},
         dirtyList := if b.dirty && b.onList then Without(s.dirtyList, a) else s.dirtyList,
         bufs := s.bufs[a := b.(lruId := s.lruCtr + 1, onList := if b.dirty then false else b.onList, refs := 1)])
    else s.(bufs := s.bufs[a := b.(refs := b.refs + 1)])
  }

  /** The buffer of address `a` is the most recently used one. */
  ghost predicate Latest(s: State, a: nat) {
    a in s.bufs && forall c :: c in s.bufs && c != a ==> s.bufs[c].lruId < s.bufs[a].lruId
  }

  lemma FoundKeeps(s: State, a: nat)
    requires Ok(s) && a in s.bufs
    ensures Ok(Found(s, a)) && View(Found(s, a)) == View(s)
    ensures if s.bufs[a].refs == 0 then Latest(Found(s, a), a) else Found(s, a).bufs[a].lruId == s.bufs[a].lruId
    ensures Found(s, a).bufs[a].refs == s.bufs[a].refs + 1
  {
    forall c | c in s.bufs ensures s.bufs[c].lruId <= s.lruCtr {
      OkAt(s, c);
    }
    OkAt(s, a);
    OkBut2(s, a);
    WithoutIs(s.dirtyList, a);
    var s' := Found(s, a);
    assert OnlyAt(s, s', a);
    SameView(s, s', a);
    OneChanged(s, s', a);
    OkIs(s', a);
  }

  /** A new buffer with whatever its memory holds. */
  function Created(s: State, a: nat, junk: Data): State {
    s.(lruCtr := s.lruCtr + 1,
       bufs := s.bufs[a := Buf(false, false, false, false, junk, s.lruCtr + 1, 1, false)])
  }

  lemma CreateKeeps(s: State, a: nat, junk: Data)
    requires Ok(s) && a !in s.bufs && a in s.disk
    ensures Ok(Created(s, a, junk)) && View(Created(s, a, junk)) == View(s) && Latest(Created(s, a, junk), a)
  {
    forall c | c in s.bufs ensures s.bufs[c].lruId <= s.lruCtr {
      OkAt(s, c);
    }
    OkBut2(s, a);
    var s' := Created(s, a, junk);
    assert OnlyAt(s, s', a);
    SameView(s, s', a);
    OneChanged(s, s', a);
    OkIs(s', a);
  }

  /** The last reference is gone: the buffer enters the LRU index. */
  function Unreferenced(s: State, a: nat): State
    requires a in s.bufs
  {
    s.(lru := s.lru + {a}, bufs := s.bufs[a := s.bufs[a].(refs := 0)])
  }

  lemma UnrefKeeps(s: State, a: nat)
    requires Ok(s) && a in s.bufs && s.bufs[a].refs == 1
    ensures OkBut(Unreferenced(s, a), a) && View(Unreferenced(s, a)) == View(s)
  {
    OkAt(s, a);
    OkBut2(s, a);
    var s' := Unreferenced(s, a);
    assert OnlyAt(s, s', a);
    SameView(s, s', a);
    OneChanged(s, s', a);
  }

  /** Put a waiting dirty buffer on the list. */
  function Queued(s: State, a: nat): State
    requires a in s.bufs
  {
    if s.bufs[a].onList then s
    else s.(dirtyList := [a] + s.dirtyList, bufs := s.bufs[a := s.bufs[a].(onList := true)])
  }

  lemma QueueKeeps(s: State, a: nat)
    requires OkBut(s, a) && a in s.bufs && s.bufs[a].dirty && s.bufs[a].refs == 0 && s.writeBack > 0
    ensures Ok(Queued(s, a)) && View(Queued(s, a)) == View(s)
  {
    assert BufOk(s, a, false);
    var s' := Queued(s, a);
    if !s.bufs[a].onList {
      DistinctCons(a, s.dirtyList);
    }
    assert OnlyAt(s, s', a);
    SameView(s, s', a);
    OneChanged(s, s', a);
    OkIs(s', a);
  }

  /** The buffer of address `a` is replaced; it keeps its references and its place in the LRU order. */
  function WithBuf(s: State, a: nat, b: Buf): State {
    s.(bufs := s.bufs[a := b])
  }

  /** Replacing a buffer that is not on the dirty list. */
  lemma BufKeeps(s: State, a: nat, b: Buf)
    requires Ok(s) && a in s.bufs && b.lruId == s.bufs[a].lruId && b.refs == s.bufs[a].refs &&
      b.onList == s.bufs[a].onList
    requires (b.dirty ==> b.uptodate) && (b.onList ==> b.dirty)
    requires a in s.disk && (b.uptodate && !b.dirty ==> b.data == s.disk[a])
    requires b.refs == 0 && b.dirty ==> b.onList
    ensures Ok(WithBuf(s, a, b)) && a in View(s)
    ensures View(WithBuf(s, a, b)) == View(s)[a := if b.uptodate then b.data else s.disk[a]]
  {
    OkAt(s, a);
    OkBut2(s, a);
    var s' := WithBuf(s, a, b);
    assert OnlyAt(s, s', a);
    ViewAt(s, s', a);
    OneChanged(s, s', a);
    OkIs(s', a);
  }

  /** Forget what a buffer holds. */
  function Invalid(s: State, a: nat): State
    requires a in s.bufs
  {
    s.(dirtyList := if s.bufs[a].dirty && s.bufs[a].onList then Without(s.dirtyList, a) else s.dirtyList,
       bufs := s.bufs[a := s.bufs[a].(uptodate := false, dirty := false,
                                      onList := if s.bufs[a].dirty then false else s.bufs[a].onList)])
  }

  lemma InvalidKeeps(s: State, a: nat)
    requires Ok(s) && a in s.bufs
    ensures a in s.disk && Ok(Invalid(s, a)) && View(Invalid(s, a)) == View(s)[a := s.disk[a]]
  {
    OkAt(s, a);
    OkBut2(s, a);
    WithoutIs(s.dirtyList, a);
    var s' := Invalid(s, a);
    assert OnlyAt(s, s', a);
    ViewAt(s, s', a);
    OneChanged(s, s', a);
    OkIs(s', a);
  }

  // ----- the least recently used buffer -----

  ghost predicate Lowest(s: State, a: nat) {
    a in s.lru && a in s.bufs && forall c :: c in s.lru && c in s.bufs ==> s.bufs[a].lruId <= s.bufs[c].lruId
  }

  lemma {:induction false} SomeLowest(s: State, rest: set<nat>) returns (a: nat)
    requires rest != {} && rest <= s.bufs.Keys
    ensures a in rest && forall c :: c in rest ==> s.bufs[a].lruId <= s.bufs[c].lruId
    decreases |rest|
  {
    var c :| c in rest;
    if rest == {c} {
      a := c;
    } else {
      a := SomeLowest(s, rest - {c});
      if s.bufs[c].lruId < s.bufs[a].lruId {
        a := c;
      }
    }
  }
}
