/** The xv6 buffer cache: a fixed set of buffers with identities, reference counts and an LRU list. */
module BufCache {
  import opened BufList
  import opened Lists

  type Data = seq<int>

  /** Device and block number. */
  datatype Id = Id(dev: nat, blockno: nat)

  datatype Buf = Buf(id: Id, valid: bool, refcnt: nat, data: Data)

  /** No two buffers stand for the same block of a real device. */
  ghost predicate UniqueIds(bufs: seq<Buf>) {
    forall i, j :: 0 <= i < j < |bufs| && bufs[i].id.dev != 0 ==> bufs[i].id != bufs[j].id
  }

  /** A buffer whose contents are not on disk is referenced. */
  ghost predicate SavedOrHeld(b: Buf, disk: map<Id, Data>) {
    b.refcnt == 0 && b.valid && b.id.dev != 0 ==> b.id in disk && disk[b.id] == b.data
  }

  /** The order of the list is the order of release, latest first. */
  ghost predicate ByRelease(order: seq<nat>, stamp: seq<nat>, clock: nat) {
    && (forall i :: 0 <= i < |order| ==> order[i] < |stamp| && stamp[order[i]] <= clock)
    && forall i, j :: 0 <= i < j < |order| ==> stamp[order[i]] > stamp[order[j]]
  }

  /** The buffer that stands for a block and holds its contents, or the number of buffers. */
  function Holder(bufs: seq<Buf>, id: Id, from: nat): (i: nat)
    requires from <= |bufs|
    ensures from <= i <= |bufs|
    ensures i < |bufs| ==> bufs[i].id == id && bufs[i].valid
    ensures forall j :: from <= j < i ==> !(bufs[j].id == id && bufs[j].valid)
    decreases |bufs| - from
  {
    if from == |bufs| || (bufs[from].id == id && bufs[from].valid) then from else Holder(bufs, id, from + 1)
  }

  /** What a reader of a block must get: the cached contents if there are any, else those on disk. */
  ghost function Current(bufs: seq<Buf>, disk: map<Id, Data>, id: Id): Data
    requires id in disk
  {
    var i := Holder(bufs, id, 0);
    if i < |bufs| then bufs[i].data else disk[id]
  }

  ghost predicate SameContents(bufs: seq<Buf>, disk: map<Id, Data>, bufs': seq<Buf>, disk': map<Id, Data>) {
    disk'.Keys == disk.Keys && forall id :: id in disk && id.dev != 0 ==>
        Current(bufs', disk', id) == Current(bufs, disk, id)
  }

  lemma HolderIs(bufs: seq<Buf>, id: Id, i: nat)
    requires UniqueIds(bufs) && id.dev != 0 && i < |bufs| && bufs[i].id == id && bufs[i].valid
    ensures Holder(bufs, id, 0) == i
  {
    var x, y := bufs[Holder(bufs, id, 0)], bufs[i];
  }

  /** Only which buffers hold the block matters. */
  lemma {:induction false} HolderSame(bufs: seq<Buf>, bufs': seq<Buf>, id: Id, from: nat)
    requires |bufs| == |bufs'| && from <= |bufs|
    requires forall j :: 0 <= j < |bufs| ==>
      (bufs'[j].id == id && bufs'[j].valid <==> bufs[j].id == id && bufs[j].valid)
    ensures Holder(bufs', id, from) == Holder(bufs, id, from)
    decreases |bufs| - from
  {
    if from < |bufs| {
      HolderSame(bufs, bufs', id, from + 1);
    }
  }

  /** Changing one buffer affects at most the blocks of its old and its new identity. */
  lemma OneBuffer(bufs: seq<Buf>, bufs': seq<Buf>, b: nat, id: Id)
    requires UniqueIds(bufs) && UniqueIds(bufs') && id.dev != 0 && b < |bufs| == |bufs'|
    requires forall i :: 0 <= i < |bufs| && i != b ==> bufs'[i] == bufs[i]
    requires bufs[b].id != id && bufs'[b].id != id
    ensures var h := Holder(bufs, id, 0);
      Holder(bufs', id, 0) == h && (h < |bufs| ==> h != b)
  {
    HolderSame(bufs, bufs', id, 0);
  }

  class Cache {
    /** Number of buffers; the head of the list has this index in the links. */
    const n: nat
    var bufs: seq<Buf>
    var next: seq<nat>
    var prev: seq<nat>
    var disk: map<Id, Data>
    ghost var order: seq<nat>
    ghost var stamp: seq<nat>
    ghost var clock: nat

    ghost predicate Valid()
      reads this
    {
      && |bufs| == n == |order| == |stamp| && Linked(next, prev, order, n)
      && UniqueIds(bufs) && ByRelease(order, stamp, clock)
      && forall i :: 0 <= i < n ==> SavedOrHeld(bufs[i], disk)
    }

    /** All buffers unused, linked one after the other behind the head. */
    constructor (n: nat, disk: map<Id, Data>)
      ensures Valid() && this.n == n && this.disk == disk
      ensures forall id :: id in disk && id.dev != 0 ==> Current(bufs, this.disk, id) == disk[id]
    {
      this.n, this.disk := n, disk;
      bufs := seq(n, i => Buf(Id(0, 0), false, 0, []));
      next, prev := seq(n + 1, i => n), seq(n + 1, i => n);
      order, stamp, clock := [], seq(n, i => i), n;
      new;
      assert Edge(next, prev, [], n, 0);
      var b := 0;
      while b < n
        invariant 0 <= b <= n && Linked(next, prev, order, n) && |order| == b
        invariant forall i :: 0 <= i < b ==> order[i] == b - 1 - i
        invariant |bufs| == n == |stamp| && clock == n && stamp == seq(n, i => i) && this.disk == disk
        invariant forall i :: 0 <= i < n ==> bufs[i] == Buf(Id(0, 0), false, 0, [])
      {
        next, prev := InsertFront(next, prev, b, n, order);
        order := [b] + order;
        b := b + 1;
      }
    }

    /** Find the buffer of a block, or give the block the least recently released unused buffer. */
    method Bget(id: Id) returns (b: nat, panic: bool)
      requires Valid() && id.dev != 0
      modifies this`bufs
      ensures Valid()
      ensures panic <==> forall i :: 0 <= i < n ==> old(bufs)[i].id != id && old(bufs)[i].refcnt > 0
      ensures panic ==> bufs == old(bufs)
      ensures !panic ==>
        && b < n && bufs[b].id == id
        && bufs == old(bufs)[b := bufs[b]]
        && (old(bufs)[b].id == id ==> bufs[b] == old(bufs)[b].(refcnt := old(bufs)[b].refcnt + 1))
        && (old(bufs)[b].id != id ==>
              && bufs[b] == Buf(id, false, 1, old(bufs)[b].data) && old(bufs)[b].refcnt == 0
              && (forall i :: 0 <= i < n ==> old(bufs)[i].id != id)
              && forall i :: 0 <= i < n && old(bufs)[i].refcnt == 0 && i != b ==> stamp[b] < stamp[i])
      ensures SameContents(old(bufs), disk, bufs, disk)
    {
      hide SavedOrHeld, Linked, UniqueIds, ByRelease, SameContents;
      b := FindBuf(id);
      if b < n {
        CountUp(bufs, disk, b);
        bufs := bufs[b := bufs[b].(refcnt := bufs[b].refcnt + 1)];
        return b, false;
      }
      b := FindIdle();
      if b < n {
        Recycle(bufs, disk, b, id);
        bufs := bufs[b := bufs[b].(id := id, valid := false, refcnt := 1)];
        return b, false;
      }
      SameAsBefore(bufs, disk);
      panic := true;
    }

    /** Walk through the list from its front for the buffer of a block. */
    method FindBuf(id: Id) returns (b: nat)
      requires Valid()
      ensures b <= n && (b < n ==> bufs[b].id == id)
      ensures b == n ==> forall i :: 0 <= i < n ==> bufs[i].id != id
    {
      b := next[n];
      ghost var k: nat := 1;
      FirstLink(next, prev, order, n);
      while b != n
        invariant 1 <= k <= |order| + 1 && b == At(order, n, k)
        invariant forall i :: 0 <= i < k - 1 ==> bufs[order[i]].id != id
        decreases |order| + 1 - k
      {
        if bufs[b].id == id {
          return;
        }
        assert Edge(next, prev, order, n, k);
        b := next[b];
        k := k + 1;
      }
      Everywhere(order, n, k);
      NoneHas(bufs, order, n, id);
    }

    /** Walk through the list from its end for an unreferenced buffer. */
    method FindIdle() returns (b: nat)
      requires Valid()
      ensures b <= n && (b < n ==> bufs[b].refcnt == 0)
      ensures b < n ==> forall i :: 0 <= i < n && bufs[i].refcnt == 0 && i != b ==> stamp[b] < stamp[i]
      ensures b == n ==> forall i :: 0 <= i < n ==> bufs[i].refcnt > 0
    {
      b := prev[n];
      ghost var k: nat := |order|;
      LastLink(next, prev, order, n);
      while b != n
        invariant 0 <= k <= |order| && b == At(order, n, k)
        invariant forall i :: k <= i < |order| ==> bufs[order[i]].refcnt > 0
        decreases k
      {
        if bufs[b].refcnt == 0 {
          Oldest(bufs, order, stamp, clock, n, k);
          return;
        }
        assert Edge(next, prev, order, n, k - 1);
        b := prev[b];
        k := k - 1;
      }
      assert k == 0;
      NoneIdle(bufs, order, n);
    }

    /** A referenced buffer with the current contents of the block. */
    method Bread(id: Id) returns (b: nat, panic: bool)
      requires Valid() && id.dev != 0 && id in disk
      modifies this`bufs
      ensures Valid() && SameContents(old(bufs), disk, bufs, disk)
      ensures !panic ==>
        && b < n && bufs[b].id == id && bufs[b].valid && bufs[b].data == Current(old(bufs), disk, id)
        && bufs == old(bufs)[b := bufs[b]]
        && (if old(bufs)[b].id == id then bufs[b].refcnt == old(bufs)[b].refcnt + 1
            else old(bufs)[b].refcnt == 0 && bufs[b].refcnt == 1)
        && (old(bufs)[b].id == id && old(bufs)[b].valid ==>
              bufs[b] == old(bufs)[b].(refcnt := old(bufs)[b].refcnt + 1))
      ensures panic <==> forall i :: 0 <= i < n ==> old(bufs)[i].id != id && old(bufs)[i].refcnt > 0
      ensures panic ==> bufs == old(bufs)
    {
      b, panic := Bget(id);
      if panic {
        return;
      }
      ghost var b1 := bufs;
      if !bufs[b].valid {
        Fill(bufs, disk, b);
        bufs := bufs[b := bufs[b].(data := disk[id], valid := true)];
      }
      HolderIs(bufs, id, b);
    }

    /** The holder of a buffer changes its contents. */
    method Modify(b: nat, data: Data)
      requires Valid() && b < n && bufs[b].valid && bufs[b].refcnt > 0 && bufs[b].id.dev != 0 && bufs[b].id in disk
      modifies this`bufs
      ensures Valid() && bufs == old(bufs)[b := old(bufs)[b].(data := data)]
      ensures forall id :: id in disk && id.dev != 0 ==>
        Current(bufs, disk, id) == if id == bufs[b].id then data else Current(old(bufs), disk, id)
    {
      Rewrite(bufs, disk, b, data);
      bufs := bufs[b := bufs[b].(data := data)];
    }

    /** Write a held buffer to disk. */
    method Bwrite(b: nat)
      requires Valid() && b < n && bufs[b].valid && bufs[b].refcnt > 0 && bufs[b].id.dev != 0 && bufs[b].id in disk
      modifies this`disk
      ensures Valid() && disk == old(disk)[bufs[b].id := bufs[b].data]
      ensures SameContents(bufs, old(disk), bufs, disk)
    {
      Saved(bufs, disk, b);
      disk := disk[bufs[b].id := bufs[b].data];
    }

    /** Give a reference back; the last one makes the buffer the most recently released. */
    method Brelse(b: nat)
      requires Valid() && b < n && bufs[b].refcnt > 0
      requires bufs[b].refcnt == 1 ==> SavedOrHeld(bufs[b].(refcnt := 0), disk)
      modifies this`bufs, this`next, this`prev, this`order, this`stamp, this`clock
      ensures Valid() && bufs == old(bufs)[b := old(bufs)[b].(refcnt := old(bufs)[b].refcnt - 1)]
      ensures SameContents(old(bufs), disk, bufs, disk)
      ensures bufs[b].refcnt > 0 ==> order == old(order)
      ensures bufs[b].refcnt == 0 ==>
        exists k :: 0 <= k < n && old(order)[k] == b && order == [b] + Rest(old(order), k)
    {
      CountDown(bufs, disk, b);
      hide UniqueIds, SameContents, SavedOrHeld, Linked, ByRelease;
      bufs := bufs[b := bufs[b].(refcnt := bufs[b].refcnt - 1)];
      if bufs[b].refcnt == 0 {
        ghost var k := ToFront(b);
      }
    }

    /** Move a buffer to the front of the list, as the one released last. */
    method ToFront(b: nat) returns (ghost k: nat)
      requires Valid() && b < n
      modifies this`next, this`prev, this`order, this`stamp, this`clock
      ensures Valid() && k < n && old(order)[k] == b && order == [b] + Rest(old(order), k)
    {
      k := Place(order, n, b);
      Restamp(order, stamp, clock, k);
      hide UniqueIds, SavedOrHeld, Linked, ByRelease;
      next, prev := MoveToFront(next, prev, b, n, order, k);
      order := [b] + Rest(order, k);
      clock := clock + 1;
      stamp := stamp[b := clock];
    }

    method Bpin(b: nat)
      requires Valid() && b < n
      modifies this`bufs
      ensures Valid() && bufs == old(bufs)[b := old(bufs)[b].(refcnt := old(bufs)[b].refcnt + 1)]
      ensures SameContents(old(bufs), disk, bufs, disk)
    {
      CountUp(bufs, disk, b);
      bufs := bufs[b := bufs[b].(refcnt := bufs[b].refcnt + 1)];
    }

    method Bunpin(b: nat)
      requires Valid() && b < n && bufs[b].refcnt > 0
      requires bufs[b].refcnt == 1 ==> SavedOrHeld(bufs[b].(refcnt := 0), disk)
      modifies this`bufs
      ensures Valid() && bufs == old(bufs)[b := old(bufs)[b].(refcnt := old(bufs)[b].refcnt - 1)]
      ensures SameContents(old(bufs), disk, bufs, disk)
    {
      CountDown(bufs, disk, b);
      bufs := bufs[b := bufs[b].(refcnt := bufs[b].refcnt - 1)];
    }
  }

  // ----- the list -----

  lemma FirstLink(next: seq<nat>, prev: seq<nat>, order: seq<nat>, head: nat)
    requires Linked(next, prev, order, head)
    ensures next[head] == At(order, head, 1)
  {
    assert Edge(next, prev, order, head, 0);
  }

  lemma LastLink(next: seq<nat>, prev: seq<nat>, order: seq<nat>, head: nat)
    requires Linked(next, prev, order, head)
    ensures prev[head] == At(order, head, |order|)
  {
    assert Edge(next, prev, order, head, |order|);
  }

  ghost function Upto(n: nat): set<nat> {
    if n == 0 then {} else Upto(n - 1) + {n - 1}
  }

  lemma {:induction false} UptoIs(n: nat)
    ensures |Upto(n)| == n && forall i: nat :: i in Upto(n) <==> i < n
  {
    if n > 0 {
      UptoIs(n - 1);
    }
  }

  /** A list of `n` different numbers below `n` contains all of them. */
  lemma Place(order: seq<nat>, n: nat, b: nat) returns (k: nat)
    requires Distinct(order) && |order| == n && b < n && forall i :: 0 <= i < n ==> order[i] < n
    ensures k < n && order[k] == b
  {
    UptoIs(n);
    var others := Upto(n) - {b};
    assert |others| == n - 1;
    if b !in order {
      SeqInSet(order, others);
    }
    k :| 0 <= k < |order| && order[k] == b;
  }

  lemma {:induction false} SeqInSet(s: seq<nat>, t: set<nat>)
    requires Distinct(s) && forall i :: 0 <= i < |s| ==> s[i] in t
    ensures |s| <= |t|
  {
    if s != [] {
      SeqInSet(s[1..], t - {s[0]});
    }
  }

  lemma NoneHas(bufs: seq<Buf>, order: seq<nat>, n: nat, id: Id)
    requires |bufs| == n == |order| && Distinct(order) && (forall i :: 0 <= i < n ==> order[i] < n)
    requires forall i :: 0 <= i < n ==> bufs[order[i]].id != id
    ensures forall i :: 0 <= i < n ==> bufs[i].id != id
  {
    forall i | 0 <= i < n ensures bufs[i].id != id {
      var k := Place(order, n, i);
    }
  }

  lemma NoneIdle(bufs: seq<Buf>, order: seq<nat>, n: nat)
    requires |bufs| == n == |order| && Distinct(order) && (forall i :: 0 <= i < n ==> order[i] < n)
    requires forall i :: 0 <= i < n ==> bufs[order[i]].refcnt > 0
    ensures forall i :: 0 <= i < n ==> bufs[i].refcnt > 0
  {
    forall i | 0 <= i < n ensures bufs[i].refcnt > 0 {
      var k := Place(order, n, i);
    }
  }

  lemma SameAsBefore(bufs: seq<Buf>, disk: map<Id, Data>)
    ensures SameContents(bufs, disk, bufs, disk)
  {
  }

  /** A walk that came back to the head has passed every buffer. */
  lemma Everywhere(order: seq<nat>, n: nat, k: nat)
    requires Distinct(order) && |order| == n && (forall i :: 0 <= i < n ==> order[i] < n)
    requires 1 <= k <= |order| + 1 && At(order, n, k) == n
    ensures k == |order| + 1
  {
  }

  /** The last idle buffer of the list is the one released longest ago. */
  lemma Oldest(bufs: seq<Buf>, order: seq<nat>, stamp: seq<nat>, clock: nat, n: nat, k: nat)
    requires |bufs| == n == |order| == |stamp| && Distinct(order) && (forall i :: 0 <= i < n ==> order[i] < n)
    requires ByRelease(order, stamp, clock) && 1 <= k <= n && forall i :: k <= i < n ==> bufs[order[i]].refcnt > 0
    ensures forall i :: 0 <= i < n && bufs[i].refcnt == 0 && i != order[k - 1] ==> stamp[order[k - 1]] < stamp[i]
  {
    forall i | 0 <= i < n && bufs[i].refcnt == 0 && i != order[k - 1] ensures stamp[order[k - 1]] < stamp[i] {
      var j := Place(order, n, i);
    }
  }

  lemma Restamp(order: seq<nat>, stamp: seq<nat>, clock: nat, k: nat)
    requires Distinct(order) && k < |order| && ByRelease(order, stamp, clock)
    ensures ByRelease([order[k]] + Rest(order, k), stamp[order[k] := clock + 1], clock + 1)
  {
    var b, rest := order[k], Rest(order, k);
    var all, stamp' := [b] + rest, stamp[b := clock + 1];
    forall i | 0 <= i < |rest| ensures rest[i] == order[if i < k then i else i + 1] && rest[i] != b {
    }
    forall i | 0 <= i < |all| ensures all[i] == if i == 0 then b else rest[i - 1] {
    }
  }

  // ----- single buffers -----

  lemma CountUp(bufs: seq<Buf>, disk: map<Id, Data>, b: nat)
    requires UniqueIds(bufs) && b < |bufs| && forall i :: 0 <= i < |bufs| ==> SavedOrHeld(bufs[i], disk)
    ensures var bufs' := bufs[b := bufs[b].(refcnt := bufs[b].refcnt + 1)];
      && UniqueIds(bufs') && SameContents(bufs, disk, bufs', disk)
      && forall i :: 0 <= i < |bufs'| ==> SavedOrHeld(bufs'[i], disk)
  {
    SameData(bufs, disk, b, bufs[b].(refcnt := bufs[b].refcnt + 1));
  }

  lemma CountDown(bufs: seq<Buf>, disk: map<Id, Data>, b: nat)
    requires UniqueIds(bufs) && b < |bufs| && bufs[b].refcnt > 0 && forall i :: 0 <= i < |bufs| ==>
      SavedOrHeld(bufs[i], disk)
    requires bufs[b].refcnt == 1 ==> SavedOrHeld(bufs[b].(refcnt := 0), disk)
    ensures var bufs' := bufs[b := bufs[b].(refcnt := bufs[b].refcnt - 1)];
      && UniqueIds(bufs') && SameContents(bufs, disk, bufs', disk)
      && forall i :: 0 <= i < |bufs'| ==> SavedOrHeld(bufs'[i], disk)
  {
    SameData(bufs, disk, b, bufs[b].(refcnt := bufs[b].refcnt - 1));
  }

  /** A buffer that keeps identity, validity and contents. */
  lemma SameData(bufs: seq<Buf>, disk: map<Id, Data>, b: nat, x: Buf)
    requires UniqueIds(bufs) && b < |bufs| && x.id == bufs[b].id && x.valid == bufs[b].valid && x.data == bufs[b].data
    ensures UniqueIds(bufs[b := x]) && SameContents(bufs, disk, bufs[b := x], disk)
  {
    var bufs' := bufs[b := x];
    forall id | id in disk && id.dev != 0 ensures Current(bufs', disk, id) == Current(bufs, disk, id) {
      HolderSame(bufs, bufs', id, 0);
    }
  }

  /** No other buffer has the identity of buffer `b`. */
  lemma Alone(bufs: seq<Buf>, b: nat)
    requires UniqueIds(bufs) && b < |bufs| && bufs[b].id.dev != 0
    ensures forall j :: 0 <= j < |bufs| && j != b ==> bufs[j].id != bufs[b].id
  {
    forall j | 0 <= j < |bufs| && j != b ensures bufs[j].id != bufs[b].id {
      if j < b {
        assert bufs[j].id.dev != 0 ==> bufs[j].id != bufs[b].id;
      }
    }
  }

  lemma NoHolder(bufs: seq<Buf>, id: Id)
    requires forall j :: 0 <= j < |bufs| ==> !(bufs[j].id == id && bufs[j].valid)
    ensures Holder(bufs, id, 0) == |bufs|
  {
  }

  lemma Recycle(bufs: seq<Buf>, disk: map<Id, Data>, b: nat, id: Id)
    requires UniqueIds(bufs) && b < |bufs| && bufs[b].refcnt == 0 && id.dev != 0
    requires forall i :: 0 <= i < |bufs| ==> SavedOrHeld(bufs[i], disk) && bufs[i].id != id
    ensures var bufs' := bufs[b := bufs[b].(id := id, valid := false, refcnt := 1)];
      && UniqueIds(bufs') && SameContents(bufs, disk, bufs', disk)
      && forall i :: 0 <= i < |bufs'| ==> SavedOrHeld(bufs'[i], disk)
  {
    var bufs' := bufs[b := bufs[b].(id := id, valid := false, refcnt := 1)];
    forall x | x in disk && x.dev != 0 ensures Current(bufs', disk, x) == Current(bufs, disk, x) {
      if x == bufs[b].id {
        Alone(bufs, b);
        forall j | 0 <= j < |bufs'| ensures bufs'[j].id != x {
        }
        NoHolder(bufs', x);
        if bufs[b].valid {
          HolderIs(bufs, x, b);
          assert SavedOrHeld(bufs[b], disk);
        } else {
          NoHolder(bufs, x);
        }
      } else if x == id {
        assert Holder(bufs, x, 0) == |bufs|;
      } else {
        OneBuffer(bufs, bufs', b, x);
      }
    }
  }

  lemma Fill(bufs: seq<Buf>, disk: map<Id, Data>, b: nat)
    requires UniqueIds(bufs) && b < |bufs| && !bufs[b].valid && bufs[b].refcnt > 0 && bufs[b].id.dev != 0 &&
      bufs[b].id in disk
    requires forall i :: 0 <= i < |bufs| ==> SavedOrHeld(bufs[i], disk)
    ensures var bufs' := bufs[b := bufs[b].(data := disk[bufs[b].id], valid := true)];
      && UniqueIds(bufs') && SameContents(bufs, disk, bufs', disk)
      && (forall i :: 0 <= i < |bufs'| ==> SavedOrHeld(bufs'[i], disk))
      && Current(bufs, disk, bufs[b].id) == disk[bufs[b].id]
  {
    var x := bufs[b].id;
    var bufs' := bufs[b := bufs[b].(data := disk[x], valid := true)];
    forall id | id in disk && id.dev != 0 ensures Current(bufs', disk, id) == Current(bufs, disk, id) {
      if id == x {
        HolderIs(bufs', x, b);
        Alone(bufs, b);
        NoHolder(bufs, x);
      } else {
        OneBuffer(bufs, bufs', b, id);
      }
    }
  }

  lemma Rewrite(bufs: seq<Buf>, disk: map<Id, Data>, b: nat, data: Data)
    requires UniqueIds(bufs) && b < |bufs| && bufs[b].valid && bufs[b].refcnt > 0 && bufs[b].id.dev != 0 &&
      bufs[b].id in disk
    requires forall i :: 0 <= i < |bufs| ==> SavedOrHeld(bufs[i], disk)
    ensures var bufs' := bufs[b := bufs[b].(data := data)];
      && UniqueIds(bufs') && (forall i :: 0 <= i < |bufs'| ==> SavedOrHeld(bufs'[i], disk))
      && forall id :: id in disk && id.dev != 0 ==>
           Current(bufs', disk, id) == if id == bufs[b].id then data else Current(bufs, disk, id)
  {
    var x := bufs[b].id;
    var bufs' := bufs[b := bufs[b].(data := data)];
    forall id | id in disk && id.dev != 0
      ensures Current(bufs', disk, id) == if id == x then data else Current(bufs, disk, id)
    {
      if id == x {
        HolderIs(bufs', x, b);
      } else {
        OneBuffer(bufs, bufs', b, id);
      }
    }
  }

  lemma Saved(bufs: seq<Buf>, disk: map<Id, Data>, b: nat)
    requires UniqueIds(bufs) && b < |bufs| && bufs[b].valid && bufs[b].refcnt > 0 && bufs[b].id.dev != 0 &&
      bufs[b].id in disk
    requires forall i :: 0 <= i < |bufs| ==> SavedOrHeld(bufs[i], disk)
    ensures var disk' := disk[bufs[b].id := bufs[b].data];
      SameContents(bufs, disk, bufs, disk') && forall i :: 0 <= i < |bufs| ==> SavedOrHeld(bufs[i], disk')
  {
    var x := bufs[b].id;
    var disk' := disk[x := bufs[b].data];
    HolderIs(bufs, x, b);
    forall i | 0 <= i < |bufs| ensures SavedOrHeld(bufs[i], disk') {
      assert i < b ==> bufs[i].id.dev != 0 ==> bufs[i].id != bufs[b].id;
      assert SavedOrHeld(bufs[i], disk);
    }
  }
}
