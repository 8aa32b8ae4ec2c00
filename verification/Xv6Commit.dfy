/**
 * Committing through the buffer cache.  Each logged block is pinned in a buffer of its own, and every
 * copy to or from the log needs one more buffer.
 */
module Xv6Commit {
  import opened BufList
  import opened BufCache
  import opened Lists

  /** The blocks `ids` are pinned, in the buffers `slots`; no other buffer is in use. */
  ghost predicate Pins(bufs: seq<Buf>, ids: seq<Id>, slots: seq<nat>) {
    && |slots| == |ids| && Distinct(slots)
    && (forall i :: 0 <= i < |slots| ==> PinnedAt(bufs, ids[i], slots[i]))
    && forall b :: 0 <= b < |bufs| && b !in slots ==> bufs[b].refcnt == 0
  }

  ghost predicate PinnedAt(bufs: seq<Buf>, id: Id, b: nat) {
    b < |bufs| && id.dev != 0 && bufs[b].id == id && bufs[b].valid && bufs[b].refcnt == 1
  }

  lemma {:induction false} SetInSeq(t: set<nat>, s: seq<nat>)
    requires forall x :: x in t ==> x in s
    ensures |t| <= |s|
    decreases |s|
  {
    if s != [] {
      SetInSeq(t - {s[0]}, s[1..]);
      assert |t| <= |t - {s[0]}| + 1;
    }
  }

  /** There is a buffer left exactly if fewer blocks are pinned than there are buffers. */
  lemma BufferLeft(bufs: seq<Buf>, ids: seq<Id>, slots: seq<nat>)
    requires Pins(bufs, ids, slots)
    ensures |ids| <= |bufs|
    ensures |ids| == |bufs| <==> forall b :: 0 <= b < |bufs| ==> bufs[b].refcnt > 0
    ensures |ids| == |bufs| ==> forall b :: 0 <= b < |bufs| ==> b in slots
  {
    var n := |bufs|;
    UptoIs(n);
    forall i | 0 <= i < |slots| ensures slots[i] in Upto(n) {
      assert PinnedAt(bufs, ids[i], slots[i]);
    }
    SeqInSet(slots, Upto(n));
    if |ids| == n {
      forall b | 0 <= b < n ensures b in slots && bufs[b].refcnt > 0 {
        var k := Place(slots, n, b);
      }
    }
    if forall b :: 0 <= b < n ==> bufs[b].refcnt > 0 {
      SetInSeq(Upto(n), slots);
    }
  }

  /** A buffer outside the pinned ones takes part; the pinned ones stay. */
  lemma PinsKept(bufs: seq<Buf>, ids: seq<Id>, slots: seq<nat>, bufs': seq<Buf>, t: nat)
    requires Pins(bufs, ids, slots) && t < |bufs| == |bufs'| && t !in slots && bufs'[t].refcnt == 0
    requires forall b :: 0 <= b < |bufs| && b != t ==> bufs'[b] == bufs[b]
    ensures Pins(bufs', ids, slots)
  {
    forall i | 0 <= i < |slots| ensures PinnedAt(bufs', ids[i], slots[i]) {
      assert PinnedAt(bufs, ids[i], slots[i]) && slots[i] in slots;
    }
  }

  /** The buffer taken for a block that is not pinned is none of the pinned ones. */
  lemma NotPinned(bufs: seq<Buf>, ids: seq<Id>, slots: seq<nat>, id: Id, t: nat)
    requires Pins(bufs, ids, slots) && id !in ids && t < |bufs| && (bufs[t].id == id || bufs[t].refcnt == 0)
    ensures t !in slots
  {
    forall i | 0 <= i < |slots| ensures slots[i] != t {
      assert PinnedAt(bufs, ids[i], slots[i]);
    }
  }

  /** Read a block that is not pinned into a buffer. */
  method Take(c: Cache, id: Id, ghost ids: seq<Id>, ghost slots: seq<nat>) returns (t: nat, panic: bool)
    requires c.Valid() && Pins(c.bufs, ids, slots) && id.dev != 0 && id in c.disk && id !in ids
    modifies c`bufs
    ensures c.Valid() && (panic <==> |ids| == c.n) && (panic ==> c.bufs == old(c.bufs))
    ensures !panic ==>
      && t < c.n && t !in slots && old(c.bufs)[t].refcnt == 0 && c.bufs == old(c.bufs)[t := c.bufs[t]]
      && c.bufs[t].id == id && c.bufs[t].valid && c.bufs[t].refcnt == 1 && c.bufs[t].data == c.disk[id]
  {
    BufferLeft(c.bufs, ids, slots);
    assert |ids| == c.n ==> forall b :: 0 <= b < c.n ==> c.bufs[b].id != id by {
      forall b | 0 <= b < c.n && |ids| == c.n ensures c.bufs[b].id != id {
        assert c.bufs[b].refcnt > 0;
        if c.bufs[b].id == id {
          NotPinned(c.bufs, ids, slots, id, b);
        }
      }
    }
    CurrentOnDisk(c.bufs, c.disk, ids, slots, id);
    hide Linked, UniqueIds, ByRelease, SameContents, Distinct;
    t, panic := c.Bread(id);
    if !panic {
      NotPinned(old(c.bufs), ids, slots, id, t);
    }
  }

  /** What is not pinned is on disk. */
  lemma CurrentOnDisk(bufs: seq<Buf>, disk: map<Id, Data>, ids: seq<Id>, slots: seq<nat>, id: Id)
    requires Pins(bufs, ids, slots) && id !in ids && id in disk && id.dev != 0
    requires forall i :: 0 <= i < |bufs| ==> SavedOrHeld(bufs[i], disk)
    ensures Current(bufs, disk, id) == disk[id]
  {
    var h := Holder(bufs, id, 0);
    if h < |bufs| {
      NotPinned(bufs, ids, slots, id, h);
      assert SavedOrHeld(bufs[h], disk);
    }
  }

  // ----- the steps of a commit -----

  /** Overwrite a block that is not pinned: the header. */
  method WriteBlock(c: Cache, id: Id, data: Data, ghost ids: seq<Id>, ghost slots: seq<nat>) returns (panic: bool)
    requires c.Valid() && Pins(c.bufs, ids, slots) && id.dev != 0 && id in c.disk && id !in ids
    modifies c
    ensures c.Valid() && (panic <==> |ids| == c.n)
    ensures !panic ==>
      && Pins(c.bufs, ids, slots) && c.disk == old(c.disk)[id := data]
      && forall i :: 0 <= i < |slots| ==> c.bufs[slots[i]] == old(c.bufs)[slots[i]]
  {
    hide Linked, UniqueIds, ByRelease, SameContents, Pins;
    var t;
    t, panic := Take(c, id, ids, slots);
    if panic {
      return;
    }
    c.Modify(t, data);
    c.Bwrite(t);
    c.Brelse(t);
    SlotsIn(old(c.bufs), ids, slots);
    PinsKept(old(c.bufs), ids, slots, c.bufs, t);
  }

  lemma SlotsIn(bufs: seq<Buf>, ids: seq<Id>, slots: seq<nat>)
    requires Pins(bufs, ids, slots)
    ensures forall i :: 0 <= i < |slots| ==> slots[i] < |bufs| && slots[i] in slots
  {
    forall i | 0 <= i < |slots| ensures slots[i] < |bufs| {
      assert PinnedAt(bufs, ids[i], slots[i]);
    }
  }

  /** Copy pinned block `i` into a block of the log. */
  method LogOne(c: Cache, log: Id, i: nat, ids: seq<Id>, ghost slots: seq<nat>) returns (panic: bool)
    requires c.Valid() && Pins(c.bufs, ids, slots) && log.dev != 0 && log in c.disk && log !in ids
    requires i < |ids| && ids[i] in c.disk
    modifies c
    ensures c.Valid() && (panic <==> |ids| == c.n)
    ensures !panic ==>
      && Pins(c.bufs, ids, slots) && slots[i] < |old(c.bufs)|
      && c.disk == old(c.disk)[log := old(c.bufs)[slots[i]].data]
      && forall k :: 0 <= k < |slots| ==> c.bufs[slots[k]] == old(c.bufs)[slots[k]]
  {
    hide Linked, ByRelease, SameContents, UniqueIds, Pins, SavedOrHeld, Current;
    var t, f, p;
    SlotsIn(c.bufs, ids, slots);
    SlotFacts(c.bufs, ids, slots, i);
    t, panic := Take(c, log, ids, slots);
    if panic {
      return;
    }
    ghost var s, b0 := slots[i], old(c.bufs);
    f, p := c.Bread(ids[i]);
    OnlyOne(c.bufs, f, s);
    assert c.bufs[s] == b0[s].(refcnt := 2);
    c.Modify(t, c.bufs[f].data);
    c.Bwrite(t);
    c.Brelse(f);
    assert c.bufs[s] == b0[s];
    OnDisk(c.bufs[t], c.disk);
    c.Brelse(t);
    assert forall b :: 0 <= b < |b0| && b != t ==> c.bufs[b] == b0[b];
    PinsKept(old(c.bufs), ids, slots, c.bufs, t);
  }

  lemma SlotFacts(bufs: seq<Buf>, ids: seq<Id>, slots: seq<nat>, i: nat)
    requires Pins(bufs, ids, slots) && i < |ids|
    ensures |slots| == |ids| && PinnedAt(bufs, ids[i], slots[i])
  {
  }

  lemma OnDisk(b: Buf, disk: map<Id, Data>)
    requires b.id in disk && disk[b.id] == b.data
    ensures SavedOrHeld(b.(refcnt := 0), disk)
  {
  }

  lemma OnlyOne(bufs: seq<Buf>, f: nat, s: nat)
    requires UniqueIds(bufs) && f < |bufs| && s < |bufs| && bufs[f].id == bufs[s].id && bufs[s].id.dev != 0
    ensures f == s
  {
    Alone(bufs, s);
  }

  /** Copy a block of the log to its home place and let the first pinned block go. */
  method InstallOne(c: Cache, log: Id, ids: seq<Id>, ghost slots: seq<nat>) returns (panic: bool)
    requires c.Valid() && Pins(c.bufs, ids, slots) && log.dev != 0 && log in c.disk && log !in ids
    requires ids != [] && ids[0] in c.disk
    modifies c
    ensures c.Valid() && (panic <==> |ids| == c.n)
    ensures !panic ==> Pins(c.bufs, ids[1..], slots[1..]) && c.disk == old(c.disk)[ids[0] := old(c.disk)[log]]
  {
    hide Linked, ByRelease, SameContents, UniqueIds, Pins, SavedOrHeld, Current;
    var t, f, p;
    SlotsIn(c.bufs, ids, slots);
    SlotFacts(c.bufs, ids, slots, 0);
    t, panic := Take(c, log, ids, slots);
    if panic {
      return;
    }
    ghost var s, b0 := slots[0], old(c.bufs);
    f, p := c.Bread(ids[0]);
    OnlyOne(c.bufs, f, s);
    c.Modify(f, c.bufs[t].data);
    c.Bwrite(f);
    c.Bunpin(f);
    OnDisk(c.bufs[t], c.disk);
    c.Brelse(t);
    OnDisk(c.bufs[f], c.disk);
    c.Brelse(f);
    assert forall b :: 0 <= b < |b0| && b != t && b != s ==> c.bufs[b] == b0[b];
    PinsShorter(b0, ids, slots, c.bufs, t);
  }

  lemma PinsShorter(bufs: seq<Buf>, ids: seq<Id>, slots: seq<nat>, bufs': seq<Buf>, t: nat)
    requires Pins(bufs, ids, slots) && ids != [] && t < |bufs| == |bufs'| && t !in slots && bufs'[t].refcnt == 0
    requires slots[0] < |bufs| && bufs'[slots[0]].refcnt == 0
    requires forall b :: 0 <= b < |bufs| && b != t && b != slots[0] ==> bufs'[b] == bufs[b]
    ensures Pins(bufs', ids[1..], slots[1..])
  {
    forall i | 0 <= i < |slots| - 1 ensures PinnedAt(bufs', ids[1..][i], slots[1..][i]) {
      assert PinnedAt(bufs, ids[i + 1], slots[i + 1]) && slots[i + 1] in slots && slots[0] != slots[i + 1];
    }
  }

  // ----- a whole commit -----

  function LogId(dev: nat, start: nat, k: nat): Id {
    Id(dev, start + k)
  }

  /** The log lies on the device, outside the pinned blocks, which are on the device too. */
  ghost predicate LogFits(disk: map<Id, Data>, dev: nat, start: nat, ids: seq<Id>) {
    && dev != 0
    && (forall k :: 0 <= k <= |ids| ==> LogId(dev, start, k) in disk && LogId(dev, start, k) !in ids)
    && (forall i :: 0 <= i < |ids| ==> ids[i] in disk)
  }

  ghost predicate IsLog(dev: nat, start: nat, n: nat, x: Id) {
    exists k :: 0 <= k <= n && x == LogId(dev, start, k)
  }

  /** Nothing but the log and the given blocks has changed. */
  ghost predicate OthersSame(disk: map<Id, Data>, disk': map<Id, Data>, dev: nat, start: nat, ids: seq<Id>) {
    && disk'.Keys == disk.Keys
    && forall x :: x in disk && !IsLog(dev, start, |ids|, x) && x !in ids ==> disk'[x] == disk[x]
  }

  /** The contents of the pinned blocks. */
  ghost function DataOf(bufs: seq<Buf>, slots: seq<nat>): seq<Data>
    requires forall i :: 0 <= i < |slots| ==> slots[i] < |bufs|
  {
    seq(|slots|, i requires 0 <= i < |slots| => bufs[slots[i]].data)
  }

  /** The first `n` blocks of the log hold the given contents. */
  ghost predicate InLog(disk: map<Id, Data>, dev: nat, start: nat, ds: seq<Data>, n: nat)
    requires n <= |ds|
  {
    forall k :: 0 <= k < n ==> LogId(dev, start, k + 1) in disk && disk[LogId(dev, start, k + 1)] == ds[k]
  }

  /** Block `b` of the device holds `d`. */
  ghost predicate Stored(disk: map<Id, Data>, dev: nat, b: nat, d: Data) {
    Id(dev, b) in disk && disk[Id(dev, b)] == d
  }

  lemma InPlaces(disk: map<Id, Data>, dev: nat, start: nat, ds: seq<Data>)
    requires InLog(disk, dev, start, ds, |ds|)
    ensures forall i :: 0 <= i < |ds| ==> Stored(disk, dev, start + 1 + i, ds[i])
  {
    forall i | 0 <= i < |ds| ensures Stored(disk, dev, start + 1 + i, ds[i]) {
      assert LogId(dev, start, i + 1) == Id(dev, start + 1 + i);
    }
  }

  lemma SameData(bufs: seq<Buf>, bufs': seq<Buf>, slots: seq<nat>)
    requires forall i :: 0 <= i < |slots| ==> slots[i] < |bufs| == |bufs'| && bufs'[slots[i]] == bufs[slots[i]]
    ensures DataOf(bufs', slots) == DataOf(bufs, slots)
  {
  }

  method WriteLog(c: Cache, dev: nat, start: nat, ids: seq<Id>, ghost slots: seq<nat>,
                  ghost ds: seq<Data>) returns (panic: bool)
    requires c.Valid() && Pins(c.bufs, ids, slots) && LogFits(c.disk, dev, start, ids)
    requires (forall i :: 0 <= i < |slots| ==> slots[i] < |c.bufs|) && ds == DataOf(c.bufs, slots)
    modifies c
    ensures c.Valid() && (panic <==> ids != [] && |ids| == c.n)
    ensures !panic ==>
      && Pins(c.bufs, ids, slots) && OthersSame(old(c.disk), c.disk, dev, start, ids)
      && (forall i :: 0 <= i < |ids| ==> ids[i] in c.disk && c.disk[ids[i]] == old(c.disk)[ids[i]])
      && InLog(c.disk, dev, start, ds, |ds|)
    ensures !panic ==> forall i :: 0 <= i < |ds| ==> Stored(c.disk, dev, start + 1 + i, ds[i])
  {
    hide Pins, Linked, UniqueIds, ByRelease;
    SlotsIn(c.bufs, ids, slots);
    PinsLength(c.bufs, ids, slots);
    var tail := 0;
    while tail < |ids|
      invariant tail <= |ids| == |slots| == |ds| && c.Valid() && Pins(c.bufs, ids, slots)
      invariant (forall i :: 0 <= i < |slots| ==> slots[i] < |c.bufs|) && DataOf(c.bufs, slots) == ds
      invariant OthersSame(old(c.disk), c.disk, dev, start, ids) && InLog(c.disk, dev, start, ds, tail)
      invariant forall i :: 0 <= i < |ids| ==> ids[i] in c.disk && c.disk[ids[i]] == old(c.disk)[ids[i]]
      invariant tail > 0 ==> |ids| < c.n
    {
      var log := LogId(dev, start, tail + 1);
      ghost var b0 := c.bufs;
      panic := LogOne(c, log, tail, ids, slots);
      if panic {
        return;
      }
      SameData(b0, c.bufs, slots);
      assert ds[tail] == b0[slots[tail]].data;
      tail := tail + 1;
    }
    BufferLeft(c.bufs, ids, slots);
    InPlaces(c.disk, dev, start, ds);
    panic := false;
  }

  lemma PinsLength(bufs: seq<Buf>, ids: seq<Id>, slots: seq<nat>)
    requires Pins(bufs, ids, slots)
    ensures |slots| == |ids| <= |bufs|
  {
    BufferLeft(bufs, ids, slots);
  }

  lemma PinnedApart(bufs: seq<Buf>, ids: seq<Id>, slots: seq<nat>)
    requires Pins(bufs, ids, slots) && UniqueIds(bufs)
    ensures Apart(ids)
  {
    forall i, j | 0 <= i < j < |ids| ensures ids[i] != ids[j] {
      assert PinnedAt(bufs, ids[i], slots[i]) && PinnedAt(bufs, ids[j], slots[j]) && slots[i] != slots[j];
      Alone(bufs, slots[i]);
    }
  }

  ghost predicate Apart(ids: seq<Id>) {
    forall i, j :: 0 <= i < j < |ids| ==> ids[i] != ids[j]
  }

  /** The first `tail` blocks are in their home places, all of them in the log. */
  ghost predicate Moved(disk: map<Id, Data>, disk': map<Id, Data>, dev: nat, start: nat, ids: seq<Id>, ds: seq<Data>,
                        tail: nat)
    requires tail <= |ids| == |ds|
  {
    && OthersSame(disk, disk', dev, start, ids) && InLog(disk', dev, start, ds, |ds|)
    && forall i :: 0 <= i < tail ==> ids[i] in disk' && disk'[ids[i]] == ds[i]
  }

  lemma MovedOne(disk: map<Id, Data>, disk': map<Id, Data>, dev: nat, start: nat, ids: seq<Id>, ds: seq<Data>,
                 tail: nat)
    requires tail < |ids| == |ds| && Moved(disk, disk', dev, start, ids, ds, tail) &&
      LogFits(disk, dev, start, ids) && Apart(ids)
    ensures ids[tail] in disk' && LogId(dev, start, tail + 1) in disk' && LogId(dev, start, tail + 1) !in ids
    ensures Moved(disk, disk'[ids[tail] := disk'[LogId(dev, start, tail + 1)]], dev, start, ids, ds, tail + 1)
  {
  }

  /** Copy everything in the log home and unpin it. */
  method Install(c: Cache, dev: nat, start: nat, ids: seq<Id>, ghost slots: seq<nat>,
                 ghost ds: seq<Data>) returns (panic: bool)
    requires c.Valid() && Pins(c.bufs, ids, slots) && LogFits(c.disk, dev, start, ids) && |ids| < c.n
    requires |ds| == |ids| && InLog(c.disk, dev, start, ds, |ds|) && Apart(ids)
    modifies c
    ensures c.Valid() && !panic && Pins(c.bufs, [], []) && OthersSame(old(c.disk), c.disk, dev, start, ids)
    ensures forall i :: 0 <= i < |ids| ==> ids[i] in c.disk && c.disk[ids[i]] == ds[i]
  {
    PinsLength(c.bufs, ids, slots);
    assert Moved(c.disk, c.disk, dev, start, ids, ds, 0);
    hide Pins, Linked, UniqueIds, ByRelease, Moved, SavedOrHeld, LogFits;
    var tail := 0;
    panic := false;
    assert ids[0..] == ids && slots[0..] == slots;
    while tail < |ids|
      invariant tail <= |ids| == |slots| && c.Valid() && Pins(c.bufs, ids[tail..], slots[tail..]) && !panic
      invariant Moved(old(c.disk), c.disk, dev, start, ids, ds, tail)
    {
      MovedOne(old(c.disk), c.disk, dev, start, ids, ds, tail);
      var log, rest := LogId(dev, start, tail + 1), ids[tail..];
      assert forall x :: x in rest ==> x in ids;
      panic := InstallOne(c, log, rest, slots[tail..]);
      assert rest[1..] == ids[tail + 1..] && slots[tail..][1..] == slots[tail + 1..];
      tail := tail + 1;
    }
    assert ids[tail..] == [] && slots[tail..] == [];
    MovedAll(old(c.disk), c.disk, dev, start, ids, ds);
  }

  lemma MovedAll(disk: map<Id, Data>, disk': map<Id, Data>, dev: nat, start: nat, ids: seq<Id>, ds: seq<Data>)
    requires |ids| == |ds| && Moved(disk, disk', dev, start, ids, ds, |ids|)
    ensures OthersSame(disk, disk', dev, start, ids)
    ensures forall i :: 0 <= i < |ids| ==> ids[i] in disk' && disk'[ids[i]] == ds[i]
  {
  }

  /**
   * Write the log and its header, install and clear.  With as many blocks pinned as there are
   * buffers the first copy finds none, and that is the only way to fail.  `point` is the disk when the
   * header has been written and nothing is installed yet.
   */
  method Commit(c: Cache, dev: nat, start: nat, ids: seq<Id>, full: Data, empty: Data,
                ghost slots: seq<nat>) returns (panic: bool, ghost point: map<Id, Data>)
    requires c.Valid() && Pins(c.bufs, ids, slots) && LogFits(c.disk, dev, start, ids)
    modifies c
    ensures c.Valid() && (panic <==> ids != [] && |ids| == c.n)
    ensures ids == [] ==> c.disk == old(c.disk) && c.bufs == old(c.bufs)
    ensures !panic ==>
      && Pins(c.bufs, [], []) && OthersSame(old(c.disk), c.disk, dev, start, ids) && |slots| == |ids|
      && forall i :: 0 <= i < |ids| ==>
           slots[i] < |old(c.bufs)| && ids[i] in c.disk && c.disk[ids[i]] == old(c.bufs)[slots[i]].data
    ensures !panic && ids != [] ==> Stored(c.disk, dev, start, empty)
    ensures !panic && ids != [] ==>
      && OthersSame(old(c.disk), point, dev, start, ids) && Stored(point, dev, start, full) && |slots| == |ids|
      && forall i :: 0 <= i < |ids| ==>
           && slots[i] < |old(c.bufs)| && Stored(point, dev, start + 1 + i, old(c.bufs)[slots[i]].data)
           && ids[i] in point && ids[i] in old(c.disk) && point[ids[i]] == old(c.disk)[ids[i]]
  {
    SlotsIn(c.bufs, ids, slots);
    PinsLength(c.bufs, ids, slots);
    PinnedApart(c.bufs, ids, slots);
    hide Pins, Linked, UniqueIds, ByRelease, Apart, SavedOrHeld, OthersSame, LogFits, InLog;
    panic, point := false, c.disk;
    ghost var d0 := c.disk;
    HeadFits(d0, d0, dev, start, ids);
    if |ids| > 0 {
      ghost var ds := DataOf(c.bufs, slots);
      panic := WriteLog(c, dev, start, ids, slots, ds);
      if panic {
        return;
      }
      var head := LogId(dev, start, 0);
      HeadFits(d0, c.disk, dev, start, ids);
      HeadKeeps(d0, c.disk, dev, start, ids, ds, full);
      panic := WriteBlock(c, head, full, ids, slots);
      point := c.disk;
      InPlaces(point, dev, start, ds);
      ghost var d1 := c.disk;
      HeadFits(d0, d1, dev, start, ids);
      panic := Install(c, dev, start, ids, slots, ds);
      OthersTrans(d0, d1, c.disk, dev, start, ids);
      HeadFits(d0, c.disk, dev, start, ids);
      HeadLast(d0, c.disk, dev, start, ids, empty);
      panic := WriteBlock(c, head, empty, [], []);
    } else {
      assert ids == [] && slots == [];
    }
  }

  /** The log still fits after changes to the log and the pinned blocks. */
  lemma HeadFits(d0: map<Id, Data>, d1: map<Id, Data>, dev: nat, start: nat, ids: seq<Id>)
    requires LogFits(d0, dev, start, ids) && (d1 == d0 || OthersSame(d0, d1, dev, start, ids))
    ensures LogFits(d1, dev, start, ids) && OthersSame(d0, d0, dev, start, ids)
    ensures var head := LogId(dev, start, 0); head in d1 && head.dev != 0 && head !in ids
  {
  }

  lemma HeadLast(d0: map<Id, Data>, d1: map<Id, Data>, dev: nat, start: nat, ids: seq<Id>, data: Data)
    requires LogFits(d0, dev, start, ids) && OthersSame(d0, d1, dev, start, ids)
    ensures OthersSame(d0, d1[LogId(dev, start, 0) := data], dev, start, ids)
    ensures forall i :: 0 <= i < |ids| ==> ids[i] != LogId(dev, start, 0)
  {
    var head := LogId(dev, start, 0);
    assert IsLog(dev, start, |ids|, head);
    assert head in d1;
  }

  lemma HeadKeeps(d0: map<Id, Data>, d1: map<Id, Data>, dev: nat, start: nat, ids: seq<Id>, ds: seq<Data>, data: Data)
    requires LogFits(d0, dev, start, ids) && OthersSame(d0, d1, dev, start, ids) && |ds| == |ids|
    requires InLog(d1, dev, start, ds, |ds|)
    ensures OthersSame(d0, d1[LogId(dev, start, 0) := data], dev, start, ids)
    ensures InLog(d1[LogId(dev, start, 0) := data], dev, start, ds, |ds|)
  {
    HeadLast(d0, d1, dev, start, ids, data);
  }

  lemma OthersTrans(d0: map<Id, Data>, d1: map<Id, Data>, d2: map<Id, Data>, dev: nat, start: nat, ids: seq<Id>)
    requires OthersSame(d0, d1, dev, start, ids) && OthersSame(d1, d2, dev, start, ids)
    ensures OthersSame(d0, d2, dev, start, ids)
  {
  }
}
