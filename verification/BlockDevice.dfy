/** Block device access through the cache: get, modify, release, evict, flush, invalidate. */
module BlockDevice {
  import opened BlockCache

  class Device {
    /** Number of buffers after which the cache counts as full. */
    const cnt: nat
    var bufs: map<nat, Buf>
    var lru: set<nat>
    var dirtyList: seq<nat>
    var lruCtr: nat
    /** Nesting of requests to delay writes. */
    var writeBack: nat
    var disk: map<nat, Data>
    /** The counter as far as its end of delayed writes has been carried out. */
    ghost var phase: nat

    ghost function Now(): State
      reads this
    {
      State(bufs, lru, dirtyList, lruCtr, phase, disk)
    }

    /** What a user of the cache sees. */
    ghost function Seen(): map<nat, Data>
      reads this
    {
      View(Now())
    }

    ghost predicate Valid()
      reads this
    {
      Ok(Now()) && phase == writeBack
    }

    constructor (cnt: nat, disk: map<nat, Data>)
      ensures Valid() && Seen() == disk == this.disk && bufs == map[] && writeBack == 0
    {
      this.cnt, this.disk := cnt, disk;
      bufs, lru, dirtyList, lruCtr, writeBack, phase := map[], {}, [], 0, 0, 0;
      new;
      assert View(Now()) == disk;
    }

    method FlushBuf(a: nat)
      requires OkBut(Now(), a) && a in bufs
      modifies this`disk, this`dirtyList, this`bufs
      ensures Ok(Now()) && Seen() == old(Seen()) && Now() == Flushed(old(Now()), a)
      ensures a in Seen() && disk[a] == Seen()[a]
    {
      FlushKeeps(Now(), a);
      var b := bufs[a];
      if b.dirty && b.uptodate {
        disk := disk[a := b.data];
        if b.onList {
          dirtyList := Without(dirtyList, a);
        }
        bufs := bufs[a := b.(onList := false, dirty := false)];
      }
    }

    method DropBuf(a: nat)
      requires Valid() && a in bufs && bufs[a].refs == 0
      modifies this`lru, this`dirtyList, this`bufs
      ensures Valid() && Now() == Dropped(old(Now()), a)
      ensures !old(bufs)[a].dirty ==> Seen() == old(Seen())
    {
      DropKeeps(Now(), a);
      var b := bufs[a];
      lru := lru - {a};
      bufs := bufs - {a};
      if b.dirty && b.onList {
        dirtyList := Without(dirtyList, a);
      }
    }

    /** Make room: drop least recently used buffers, dirty ones after writing them. */
    method Shake()
      requires Valid()
      modifies this`lru, this`dirtyList, this`bufs, this`disk
      ensures Valid() && Seen() == old(Seen()) && disk.Keys == old(disk).Keys
      ensures lru == {} || |bufs| < cnt
      ensures Evicted(old(bufs), bufs, lru)
      ensures old(lru) == {} ==> disk == old(disk)
    {
      hide Ok, View, Evicted, Flushed, Dropped;
      NoneEvicted(bufs, lru);
      while lru != {} && cnt <= |bufs|
        invariant Valid() && Seen() == old(Seen()) && disk.Keys == old(disk).Keys
        invariant Evicted(old(bufs), bufs, lru)
        invariant old(lru) == {} ==> lru == {} && disk == old(disk)
        decreases |bufs|
      {
        ghost var s0 := Now();
        LruFacts(s0);
        ghost var w := SomeLowest(s0, lru);
        var a :| a in lru && forall c :: c in lru ==> bufs[a].lruId <= bufs[c].lruId;
        Evict(a);
        Smaller(s0.bufs, bufs, a);
        EvictMore(old(bufs), s0, a, bufs, lru);
      }
    }

    /** Drop an unreferenced buffer, after writing it if it is dirty. */
    method Evict(a: nat)
      requires Valid() && a in bufs && bufs[a].refs == 0
      modifies this`lru, this`dirtyList, this`bufs, this`disk
      ensures Valid() && Seen() == old(Seen()) && disk.Keys == old(disk).Keys
      ensures bufs == old(bufs) - {a} && lru == old(lru) - {a}
    {
      hide Ok, View, BufOk, Dropped, Flushed;
      ghost var s0 := Now();
      BufFacts(s0, a);
      FlushDrop(s0, a);
      if bufs[a].dirty {
        OkBut2(s0, a);
        FlushBuf(a);
      }
      DropBuf(a);
    }

    /** One more reference to the buffer of address `a`, if it is cached. */
    method FindGet(a: nat) returns (found: bool)
      requires Valid()
      modifies this`lru, this`dirtyList, this`bufs, this`lruCtr
      ensures Valid() && Seen() == old(Seen()) && found == (a in old(bufs))
      ensures Now() == if found then Found(old(Now()), a) else old(Now())
      ensures found ==> bufs[a].refs == old(bufs)[a].refs + 1
      ensures found && old(bufs)[a].refs == 0 ==> Latest(Now(), a)
    {
      hide Ok, View, Without;
      if a !in bufs {
        return false;
      }
      FoundKeeps(Now(), a);
      var b := bufs[a];
      if b.refs == 0 {
        lruCtr := lruCtr + 1;
        lru := lru - {a};
        if b.dirty {
          if b.onList {
            dirtyList := Without(dirtyList, a);
          }
          b := b.(onList := false);
        }
        b := b.(lruId := lruCtr);
      }
      bufs := bufs[a := b.(refs := b.refs + 1)];
      found := true;
    }

    /** A reference to the buffer of address `a`, without reading the block. */
    method GetNoRead(a: nat, junk: Data) returns (err: Err)
      requires Valid()
      modifies this`lru, this`dirtyList, this`bufs, this`lruCtr, this`disk
      ensures Valid() && Seen() == old(Seen())
      ensures err == if a in old(disk) then EOK else ENXIO
      ensures err == EOK ==> a in bufs && bufs[a].refs == (if a in old(bufs) then old(bufs)[a].refs else 0) + 1
      ensures forall c :: c in old(bufs) && old(bufs)[c].refs > 0 && c != a ==> c in bufs && bufs[c] == old(bufs)[c]
      ensures (forall c :: c in bufs ==> c in old(bufs) || c == a) && (old(lru) == {} ==> disk == old(disk))
      ensures err == EOK && bufs[a].uptodate ==> a in Seen() && bufs[a].data == Seen()[a]
      ensures err == EOK ==>
        if a in old(bufs) && old(bufs)[a].refs > 0 then bufs[a].lruId == old(bufs)[a].lruId else Latest(Now(), a)
    {
      hide Ok, View, Without;
      if a !in disk {
        return ENXIO;
      }
      Shake();
      var found := FindGet(a);
      if !found {
        CreateKeeps(Now(), a, junk);
        lruCtr := lruCtr + 1;
        bufs := bufs[a := Buf(false, false, false, false, junk, lruCtr, 1, false)];
      }
      SeenAt(Now(), a);
      err := EOK;
    }

    /** A reference to the buffer of address `a` with the contents of the block. */
    method Get(a: nat, junk: Data) returns (err: Err)
      requires Valid()
      modifies this`lru, this`dirtyList, this`bufs, this`lruCtr, this`disk
      ensures Valid() && Seen() == old(Seen())
      ensures err == if a in old(disk) then EOK else ENXIO
      ensures err == EOK ==>
        && a in bufs && bufs[a].refs == (if a in old(bufs) then old(bufs)[a].refs else 0) + 1
        && bufs[a].uptodate && a in Seen() && bufs[a].data == Seen()[a]
      ensures err == EOK ==>
        if a in old(bufs) && old(bufs)[a].refs > 0 then bufs[a].lruId == old(bufs)[a].lruId else Latest(Now(), a)
      ensures forall c :: c in old(bufs) && old(bufs)[c].refs > 0 && c != a ==> c in bufs && bufs[c] == old(bufs)[c]
      ensures (forall c :: c in bufs ==> c in old(bufs) || c == a) && (old(lru) == {} ==> disk == old(disk))
    {
      hide Ok, View, BufOk;
      err := GetNoRead(a, junk);
      if err != EOK || bufs[a].uptodate {
        return;
      }
      BufFacts(Now(), a);
      SeenAt(Now(), a);
      BufKeeps(Now(), a, bufs[a].(data := disk[a], uptodate := true));
      bufs := bufs[a := bufs[a].(data := disk[a], uptodate := true)];
    }

    /** The holder of a reference stores new contents and marks the buffer dirty. */
    method Modify(a: nat, data: Data)
      requires Valid() && a in bufs && bufs[a].refs > 0
      modifies this`bufs
      ensures Valid() && bufs == old(bufs)[a := old(bufs)[a].(data := data, uptodate := true, dirty := true)]
      ensures Seen() == old(Seen())[a := data]
    {
      hide Ok, View, BufOk;
      BufFacts(Now(), a);
      BufKeeps(Now(), a, bufs[a].(data := data, uptodate := true, dirty := true));
      bufs := bufs[a := bufs[a].(data := data, uptodate := true, dirty := true)];
    }

    /** The holder asks for the buffer to be written, or written and dropped, as soon as it is released. */
    method Mark(a: nat, flush: bool, tmp: bool)
      requires Valid() && a in bufs && bufs[a].refs > 0
      modifies this`bufs
      ensures Valid() && Seen() == old(Seen()) && bufs == old(bufs)[a := old(bufs)[a].(flush := flush, tmp := tmp)]
    {
      hide Ok, View, BufOk;
      BufFacts(Now(), a);
      SeenAt(Now(), a);
      BufKeeps(Now(), a, bufs[a].(flush := flush, tmp := tmp));
      bufs := bufs[a := bufs[a].(flush := flush, tmp := tmp)];
    }

    /** Release a reference. */
    method Set(a: nat)
      requires Valid() && a in bufs && bufs[a].refs > 0 && a != 0
      modifies this`lru, this`dirtyList, this`bufs, this`disk
      ensures Valid() && Seen() == old(Seen())
      ensures old(bufs)[a].refs > 1 ==>
        disk == old(disk) && bufs == old(bufs)[a := old(bufs)[a].(refs := old(bufs)[a].refs - 1)]
      ensures old(bufs)[a].refs == 1 && (writeBack == 0 || old(bufs)[a].flush || old(bufs)[a].tmp) ==>
        a in Seen() && disk[a] == Seen()[a]
      ensures old(bufs)[a].refs == 1 ==>
        && bufs - {a} == old(bufs) - {a}
        && (a in bufs <==> old(bufs)[a].uptodate && !old(bufs)[a].tmp) && (a in bufs ==> bufs[a].refs == 0)
      ensures old(bufs)[a].refs == 1 ==>
        var b := old(bufs)[a];
        var now := b.dirty && (writeBack == 0 || b.flush || b.tmp);
        && disk == (if now then old(disk)[a := b.data] else old(disk))
        && dirtyList == (if b.dirty && !now then [a] + old(dirtyList) else old(dirtyList))
        && (a in bufs ==> bufs[a] == if now then b.(refs := 0, dirty := false, flush := false)
                                     else b.(refs := 0, onList := b.dirty))
    {
      hide BufOk, OkBut, View;
      OkAt(Now(), a);
      if bufs[a].refs > 1 {
        DecKeeps(Now(), a);
        bufs := bufs[a := bufs[a].(refs := bufs[a].refs - 1)];
        return;
      }
      UnrefKeeps(Now(), a);
      bufs := bufs[a := bufs[a].(refs := 0)];
      lru := lru + {a};
      var b := bufs[a];
      DirtyOrClean(Now(), a);
      if b.dirty && b.uptodate {
        if writeBack > 0 && !b.flush && !b.tmp {
          QueueKeeps(Now(), a);
          if !b.onList {
            dirtyList := [a] + dirtyList;
            bufs := bufs[a := bufs[a].(onList := true)];
          }
        } else {
          FlushBuf(a);
          OkAt(Now(), a);
          ClearFlush(Now(), a);
          bufs := bufs[a := bufs[a].(flush := false)];
        }
      }
      if !b.uptodate || b.tmp {
        DropBuf(a);
      }
    }

    /** Write all waiting dirty buffers. */
    method CacheFlush()
      requires Ok(Now())
      modifies this`disk, this`dirtyList, this`bufs
      ensures Ok(Now()) && Seen() == old(Seen()) && dirtyList == [] && bufs.Keys == old(bufs).Keys
      ensures forall a :: a in bufs && bufs[a].refs == 0 ==> a in Seen() && disk[a] == Seen()[a]
    {
      while dirtyList != []
        invariant Ok(Now()) && Seen() == old(Seen()) && bufs.Keys == old(bufs).Keys
        decreases |dirtyList|
      {
        OkBut2(Now(), dirtyList[0]);
        FlushKeeps(Now(), dirtyList[0]);
        FlushBuf(dirtyList[0]);
      }
      CleanDisk(Now());
    }

    /** Begin or end a phase of delayed writes; when the last one ends, everything is written. */
    method SetWriteBack(on: bool)
      requires Valid()
      modifies this`writeBack, this`phase, this`disk, this`dirtyList, this`bufs
      ensures Valid() && Seen() == old(Seen())
      ensures writeBack == if on then old(writeBack) + 1 else if old(writeBack) > 0 then old(writeBack) - 1 else 0
      ensures writeBack == 0 ==> forall a :: a in bufs && bufs[a].refs == 0 ==> a in Seen() && disk[a] == Seen()[a]
    {
      if on {
        CountKeeps(Now(), phase + 1);
        writeBack, phase := writeBack + 1, phase + 1;
      }
      if !on && writeBack > 0 {
        writeBack := writeBack - 1;
      }
      if writeBack > 0 {
        CountKeeps(Now(), writeBack);
        phase := writeBack;
        return;
      }
      CacheFlush();
      CountKeeps(Now(), 0);
      phase := 0;
    }

    method InvalidateBuf(a: nat)
      requires Valid() && a in bufs
      modifies this`dirtyList, this`bufs
      ensures Valid() && a in disk && Seen() == old(Seen())[a := disk[a]] && bufs.Keys == old(bufs).Keys
    {
      InvalidKeeps(Now(), a);
      var b := bufs[a];
      if b.dirty {
        if b.onList {
          dirtyList := Without(dirtyList, a);
        }
        b := b.(onList := false);
      }
      bufs := bufs[a := b.(uptodate := false, dirty := false)];
    }

    /**
     * Forget what is cached of `count` blocks from `first` on.  The walk through the index starts at
     * the buffer of `first`; if that block is not cached, nothing happens.
     */
    method InvalidateRange(first: nat, count: nat)
      requires Valid() && count > 0
      modifies this`dirtyList, this`bufs
      ensures Valid() && bufs.Keys == old(bufs).Keys
      ensures Seen() == if first in old(bufs) then Reset(old(Seen()), disk, first, first + count) else old(Seen())
      ensures Forgotten(Seen(), disk, first, count) <==>
        first in old(bufs) || Forgotten(old(Seen()), disk, first, count)
    {
      hide Ok, View;
      SeenKeys(Now());
      if first !in bufs {
        return;
      }
      var a := first;
      ghost var seen := Seen();
      ResetNone(seen, disk, first);
      while a < first + count
        invariant first <= a <= first + count && Valid() && bufs.Keys == old(bufs).Keys
        invariant Seen() == Reset(seen, disk, first, a)
      {
        ResetMore(seen, disk, first, a);
        CachedOrNot(Now(), a);
        if a in bufs {
          InvalidateBuf(a);
        } else {
          NotCached(Now(), seen, first, a);
        }
        a := a + 1;
      }
      ResetForgets(seen, disk, first, count);
    }
  }

  /** A dirty block of the range stays, because the first block of the range is not cached. */
  method DirtyBlockSurvives() returns (d: Device)
    ensures d.Valid() && 2 in d.Seen() && 2 in d.disk && d.Seen()[2] == [9] && d.disk[2] == [0]
    ensures !Forgotten(d.Seen(), d.disk, 1, 2)
  {
    hide Ok, View;
    d := new Device(4, map[1 := [0], 2 := [0]]);
    LruFacts(d.Now());
    var err := d.Get(2, []);
    d.Modify(2, [9]);
    d.InvalidateRange(1, 2);
  }

  /** Blocks `first` to `end - 1` show what is on disk. */
  ghost function Reset(seen: map<nat, Data>, disk: map<nat, Data>, first: nat, end: nat): map<nat, Data> {
    map a | a in seen :: if first <= a < end && a in disk then disk[a] else seen[a]
  }

  ghost predicate Forgotten(seen: map<nat, Data>, disk: map<nat, Data>, first: nat, count: nat) {
    forall a :: first <= a < first + count && a in disk && a in seen ==> seen[a] == disk[a]
  }

  lemma ResetNone(seen: map<nat, Data>, disk: map<nat, Data>, first: nat)
    ensures Reset(seen, disk, first, first) == seen
  {
  }

  lemma ResetMore(seen: map<nat, Data>, disk: map<nat, Data>, first: nat, a: nat)
    requires seen.Keys == disk.Keys && first <= a
    ensures Reset(seen, disk, first, a + 1) ==
      if a in disk then Reset(seen, disk, first, a)[a := disk[a]] else Reset(seen, disk, first, a)
  {
  }

  lemma ResetForgets(seen: map<nat, Data>, disk: map<nat, Data>, first: nat, count: nat)
    ensures Forgotten(Reset(seen, disk, first, first + count), disk, first, count)
  {
  }

  lemma SeenKeys(s: State)
    ensures View(s).Keys == s.disk.Keys
  {
  }

  lemma CachedOrNot(s: State, a: nat)
    requires Ok(s)
    ensures a in s.bufs ==> a in s.disk
  {
    if a in s.bufs {
      OkAt(s, a);
    }
  }

  /** A block that is not cached shows what is on disk anyway. */
  lemma NotCached(s: State, seen: map<nat, Data>, first: nat, a: nat)
    requires a !in s.bufs && View(s) == Reset(seen, s.disk, first, a) && first <= a && seen.Keys == s.disk.Keys
    ensures View(s) == Reset(seen, s.disk, first, a + 1)
  {
    ResetMore(seen, s.disk, first, a);
    assert a in s.disk ==> View(s)[a] == s.disk[a];
    assert View(s) == View(s) + map[];
  }

  lemma SeenAt(s: State, a: nat)
    requires a in s.disk
    ensures a in View(s) && View(s)[a] == if a in s.bufs && s.bufs[a].uptodate then s.bufs[a].data else s.disk[a]
    ensures View(s)[a := View(s)[a]] == View(s)
  {
  }

  lemma BufFacts(s: State, a: nat)
    requires Ok(s) && a in s.bufs
    ensures var b := s.bufs[a];
      && a in s.disk && (b.dirty ==> b.uptodate) && (b.uptodate && !b.dirty ==> b.data == s.disk[a])
      && (b.onList ==> b.dirty && b.refs == 0) && (b.refs == 0 && b.dirty ==> b.onList)
  {
    OkAt(s, a);
  }

  /** Only unreferenced buffers are gone, and all that are left were used later. */
  ghost predicate Evicted(before: map<nat, Buf>, bufs: map<nat, Buf>, lru: set<nat>) {
    && (forall a :: a in bufs ==> a in before && bufs[a] == before[a])
    && (forall a :: a in before && before[a].refs > 0 ==> a in bufs)
    && (forall a, b :: a in before && a !in bufs && b in lru && b in bufs ==> before[a].lruId < bufs[b].lruId)
  }

  lemma NoneEvicted(bufs: map<nat, Buf>, lru: set<nat>)
    ensures Evicted(bufs, bufs, lru)
  {
  }

  lemma EvictMore(before: map<nat, Buf>, s: State, a: nat, bufs: map<nat, Buf>, lru: set<nat>)
    requires Ok(s) && Evicted(before, s.bufs, s.lru) && a in s.lru && a in s.bufs
    requires forall c :: c in s.lru && c in s.bufs ==> s.bufs[a].lruId <= s.bufs[c].lruId
    requires bufs == s.bufs - {a} && lru == s.lru - {a}
    ensures Evicted(before, bufs, lru)
  {
    LruFacts(s);
    hide Ok;
    forall x, b | x in before && x !in bufs && b in lru && b in bufs ensures before[x].lruId < bufs[b].lruId {
    }
  }

  lemma FlushDrop(s: State, a: nat)
    requires a in s.bufs
    ensures a in Flushed(s, a).bufs && Dropped(s, a).disk == s.disk &&
      Dropped(Flushed(s, a), a).disk == Flushed(s, a).disk
    ensures Dropped(s, a).bufs == s.bufs - {a} && Dropped(s, a).lru == s.lru - {a}
    ensures Dropped(Flushed(s, a), a).bufs == s.bufs - {a} && Dropped(Flushed(s, a), a).lru == s.lru - {a}
    ensures Flushed(s, a).bufs[a].refs == s.bufs[a].refs
    ensures Flushed(s, a).bufs[a].dirty ==> !s.bufs[a].uptodate
    ensures (Flushed(s, a).disk.Keys == s.disk.Keys) || a !in s.disk
  {
  }

  /**
   * The dirty list is exactly the unreferenced dirty buffers, all up to date; the LRU index exactly the
   * unreferenced ones.
   */
  lemma WaitingBuffers(s: State, a: nat)
    requires Ok(s)
    ensures a in s.dirtyList <==> a in s.bufs && s.bufs[a].dirty && s.bufs[a].refs == 0
    ensures a in s.dirtyList ==> s.bufs[a].uptodate
    ensures a in s.lru <==> a in s.bufs && s.bufs[a].refs == 0
    ensures s.writeBack == 0 && a in s.bufs && s.bufs[a].refs == 0 ==> a in View(s) && s.disk[a] == View(s)[a]
  {
    if a in s.bufs {
      OkAt(s, a);
    }
  }

  lemma LruFacts(s: State)
    requires Ok(s)
    ensures s.lru <= s.bufs.Keys
    ensures forall a :: a in s.lru ==> s.bufs[a].refs == 0
    ensures forall a, b :: a in s.bufs && b in s.bufs && a != b ==> s.bufs[a].lruId != s.bufs[b].lruId
  {
    forall a | a in s.lru ensures s.bufs[a].refs == 0 {
      OkAt(s, a);
    }
  }

  lemma Smaller(b0: map<nat, Buf>, b1: map<nat, Buf>, a: nat)
    requires a in b0 && b1.Keys == b0.Keys - {a}
    ensures |b1| < |b0|
  {
    assert |b1.Keys| == |b0.Keys - {a}|;
  }

  lemma DecKeeps(s: State, a: nat)
    requires Ok(s) && a in s.bufs && s.bufs[a].refs > 1
    ensures var s' := s.(bufs := s.bufs[a := s.bufs[a].(refs := s.bufs[a].refs - 1)]);
      Ok(s') && View(s') == View(s)
  {
    OkAt(s, a);
    OkBut2(s, a);
    var s' := s.(bufs := s.bufs[a := s.bufs[a].(refs := s.bufs[a].refs - 1)]);
    assert OnlyAt(s, s', a);
    SameView(s, s', a);
    OneChanged(s, s', a);
    OkIs(s', a);
  }

  lemma DirtyOrClean(s: State, a: nat)
    requires OkBut(s, a) && a in s.bufs
    ensures a in View(s) && (s.bufs[a].dirty ==> s.bufs[a].uptodate)
    ensures !s.bufs[a].dirty ==> Ok(s) && s.disk[a] == View(s)[a]
  {
    assert BufOk(s, a, false);
    if !s.bufs[a].dirty {
      OkIs(s, a);
    }
  }

  lemma ClearFlush(s: State, a: nat)
    requires Ok(s) && a in s.bufs
    ensures var s' := s.(bufs := s.bufs[a := s.bufs[a].(flush := false)]);
      Ok(s') && View(s') == View(s)
  {
    BufFacts(s, a);
    SeenAt(s, a);
    BufKeeps(s, a, s.bufs[a].(flush := false));
  }

  lemma CleanDisk(s: State)
    requires Ok(s) && s.dirtyList == []
    ensures forall a :: a in s.bufs && s.bufs[a].refs == 0 ==> a in View(s) && s.disk[a] == View(s)[a]
  {
    forall a | a in s.bufs && s.bufs[a].refs == 0 ensures a in View(s) && s.disk[a] == View(s)[a] {
      OkAt(s, a);
    }
  }

  lemma CountKeeps(s: State, n: nat)
    requires Ok(s) && (n == 0 ==> s.dirtyList == [])
    ensures Ok(s.(writeBack := n)) && View(s.(writeBack := n)) == View(s)
  {
    var s' := s.(writeBack := n);
    forall a | a in s'.bufs ensures BufOk(s', a, true) {
      OkAt(s, a);
    }
    OkIs(s', 0);
  }
}
