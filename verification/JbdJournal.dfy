/**
 * A journal session: giving out ring blocks, checkpointing, and writing transactions as
 * descriptor, data, revoke and commit blocks.
 */
module JbdJournal {
  import opened JbdFormat
  import opened JbdLog
  import opened JbdRecover
  import opened JbdText
  import opened JbdHistory
  import opened JbdRing
  import opened JbdState
  import opened JbdTrail
  import opened JbdTags
  import opened JbdWrite
  import opened JbdSession
  import opened JbdStory

  /** The oldest queued transaction still has a block that is not in its home place. */
  predicate HeadPending(queue: seq<Trans>) {
    queue != [] ==> queue[0].writtenCnt < queue[0].dataCnt
  }

  /** All blocks of the transaction are in their home places. */
  predicate Finished(t: Trans) {
    t.dataCnt == 0 || t.writtenCnt == t.dataCnt
  }

  /** The queue without the finished transactions at its front. */
  function Strip(queue: seq<Trans>): seq<Trans> {
    if queue == [] || !Finished(queue[0]) then queue else Strip(queue[1..])
  }

  /** This is the longest finished prefix. */
  lemma {:induction false} StripIs(queue: seq<Trans>)
    ensures var rest := Strip(queue);
      var k := |queue| - |rest|;
      && 0 <= k && rest == queue[k..] && (forall i :: 0 <= i < k ==> Finished(queue[i]))
      && (rest != [] ==> !Finished(rest[0]))
  {
    if queue != [] && Finished(queue[0]) {
      StripIs(queue[1..]);
      forall i | 0 <= i < |queue| - |Strip(queue)| ensures Finished(queue[i]) {
        assert i > 0 ==> queue[i] == queue[1..][i - 1];
      }
    }
  }

  /** The queue after one more block of transaction `i` was written home. */
  function Counted(queue: seq<Trans>, i: nat): seq<Trans>
    requires i < |queue|
  {
    var t := queue[i];
    var q := queue[i := t.(writtenCnt := t.writtenCnt + 1)];
    if i == 0 then Strip(q) else q
  }

  /** The same for the transactions that logged the blocks named by `owners`, where these are not done yet. */
  function CountedAll(queue: seq<Trans>, owners: seq<Word>): seq<Trans>
    decreases |owners|
  {
    if owners == [] then queue
    else
      var q, n := CountedAll(queue, owners[..|owners| - 1]), owners[|owners| - 1];
      var i := Find(q, n);
      if i < |q| && q[i].writtenCnt < q[i].dataCnt then Counted(q, i) else q
  }

  /** All blocks of the oldest transaction were written home. */
  function Flushed(queue: seq<Trans>): seq<Trans>
    requires queue != []
  {
    Strip(queue[0 := queue[0].(writtenCnt := queue[0].dataCnt)])
  }

  ghost predicate Ledger(all: seq<Trans>, gone: seq<Trans>, queue: seq<Trans>) {
    && |all| == |gone| + |queue|
    && (forall i :: 0 <= i < |gone| ==> Finished(gone[i]) && gone[i].(writtenCnt := 0) == all[i])
    && (forall i :: 0 <= i < |queue| ==> queue[i].(writtenCnt := 0) == all[|gone| + i])
  }

  lemma CountDown(queue: seq<Trans>, q: seq<Trans>, n: nat)
    requires queue != [] && 0 < n <= queue[0].dataCnt
    requires q == queue[0 := queue[0].(writtenCnt := queue[0].dataCnt - n)]
    ensures n == 1 ==> Counted(q, 0) == Flushed(queue)
  {
    assert n == 1 ==> q[0 := queue[0].(writtenCnt := queue[0].dataCnt)] ==
                      queue[0 := queue[0].(writtenCnt := queue[0].dataCnt)];
  }

  lemma LedgerDrop(all: seq<Trans>, gone: seq<Trans>, queue: seq<Trans>)
    requires Ledger(all, gone, queue) && queue != [] && Finished(queue[0])
    ensures Ledger(all, gone + [queue[0]], queue[1..])
  {
  }

  lemma LedgerCount(all: seq<Trans>, gone: seq<Trans>, queue: seq<Trans>, i: nat, n: nat)
    requires Ledger(all, gone, queue) && i < |queue|
    ensures Ledger(all, gone, queue[i := queue[i].(writtenCnt := n)])
  {
  }

  lemma LedgerJoin(all: seq<Trans>, gone: seq<Trans>, queue: seq<Trans>, t: Trans)
    requires Ledger(all, gone, queue) && t.writtenCnt == 0
    ensures Ledger(all + [t], gone, queue + [t])
    ensures queue == [] && Finished(t) ==> Ledger(all + [t], gone + [t], queue)
  {
  }

  /** `new` is the rest of `old` after some of the oldest transactions have left. */
  ghost predicate Later(old_: seq<Trans>, new_: seq<Trans>) {
    && |new_| <= |old_|
    && forall i :: 0 <= i < |new_| ==>
         new_[i].(writtenCnt := 0) == old_[|old_| - |new_| + i].(writtenCnt := 0)
  }

  lemma LaterTrans(a: seq<Trans>, b: seq<Trans>, c: seq<Trans>)
    requires Later(a, b) && Later(b, c)
    ensures Later(a, c)
  {
    forall i | 0 <= i < |c| ensures c[i].(writtenCnt := 0) == a[|a| - |c| + i].(writtenCnt := 0) {
      var k := |b| - |c| + i;
      assert b[k].(writtenCnt := 0) == a[|a| - |b| + k].(writtenCnt := 0);
    }
  }

  /** Leave out unmodified buffers at the end of the list. */
  method TrimClean(bufs: seq<Buf>) returns (n: nat)
    ensures n <= |bufs| && DirtyOf(bufs[..n]) == DirtyOf(bufs) && (n > 0 ==> bufs[n - 1].dirty)
  {
    n := |bufs|;
    assert bufs[..n] == bufs;
    while n > 0
      invariant n <= |bufs| && DirtyOf(bufs[..n]) == DirtyOf(bufs)
    {
      if bufs[n - 1].dirty {
        break;
      }
      DirtySnoc(bufs, n - 1);
      n := n - 1;
    }
  }

  class Journal {
    const g: Geometry
    const uuid: seq<Word>
    /** The session began on a ring without blocks that could be taken for its transactions. */
    ghost const clean: bool
    var ring: seq<Block>
    var start: nat
    var last: nat
    var transId: Word
    var allocTransId: Word
    var queue: seq<Trans>
    /** First block and number of blocks of the transaction being written. */
    var startBlock: nat
    var alloc: nat
    /** The journal superblock on disk. */
    var diskStart: nat
    var diskId: Word
    ghost var segs: seq<seq<Block>>
    ghost var from: nat
    /** What the superblock on disk leads to while the queue is empty. */
    ghost var trail: Trail
    /** Where the transaction being committed began, and the journal on disk then and after each write since. */
    ghost var origin: Origin
    ghost var disks: seq<Disk>
    /** All transactions of the session as they were committed, and those that have left the queue as they left it. */
    ghost var all: seq<Trans>
    ghost var gone: seq<Trans>

    ghost function Now(): State
      reads this
    {
      State(g, ring, start, last, transId, queue, segs, from, alloc, clean)
    }

    /** The superblock on disk points to the oldest transaction. */
    predicate OnDisk()
      reads this
    {
      diskStart == start && diskId == transId
    }

    /** With an empty queue the superblock may lag behind, but leads to nothing that logs a copy. */
    ghost predicate DiskOk()
      reads this
    {
      Leads(Now(), trail, diskStart, diskId)
    }

    ghost predicate Sound()
      reads this
    {
      Ok(Now()) && |uuid| == 4 && HeadPending(queue) && DiskOk() && Books()
    }

    /** Every transaction of the session is queued, or all its blocks have been written to their home places. */
    ghost predicate Books()
      reads this
    {
      Ledger(all, gone, queue)
    }

    /** Every disk so far was recoverable; `whole` is the present transaction once its commit block is written. */
    ghost predicate Follows(whole: Option<Content>)
      reads this
      requires Ok(Now())
    {
      Told(Now(), trail, diskStart, diskId, origin, disks, whole)
    }

    ghost predicate Valid()
      reads this
    {
      Sound() && Follows(None)
    }

    lemma ValidOk()
      requires Valid()
      ensures Ok(Now()) && DiskOk()
    {
    }

    lemma SoundOk()
      requires Sound()
      ensures Ok(Now()) && DiskOk()
    {
    }

    /** The present transaction is on the ring with its commit block, and not in the queue yet. */
    ghost predicate Written(c: Content)
      reads this
    {
      Sound() && Follows(Some(c))
    }

    lemma WrittenMeans(c: Content)
      requires Written(c)
      ensures Ok(Now()) && |uuid| == 4 && HeadPending(queue) && Leads(Now(), trail, diskStart, diskId)
      ensures Ledger(all, gone, queue) && Told(Now(), trail, diskStart, diskId, origin, disks, Some(c))
    {
    }

    lemma QuietMeans()
      requires Ok(Now()) && |uuid| == 4 && HeadPending(queue) && Leads(Now(), trail, diskStart, diskId)
      requires Ledger(all, gone, queue) && Told(Now(), trail, diskStart, diskId, origin, disks, None)
      requires alloc == 0 && startBlock == 0 && from == last && allocTransId == CurId(Now()) && Total(queue) < Length(g)
      ensures Quiet()
    {
    }

    /** The trail of the last write of the superblock, or that of an earlier one. */
    ghost predicate Trailing(before: seq<Trans>, was: Trail)
      reads this
    {
      trail == if queue == [] && before != [] then NoTrail(Now()) else was
    }

    /**
     * Count one more block of transaction `i` as written; when it was the last one of the oldest
     * transaction, move on.
     */
    method EndWrite(i: nat, ghost whole: Option<Content>)
      requires Ok(Now()) && Books() && i < |queue| && queue[i].writtenCnt < queue[i].dataCnt
      modifies this`start, this`transId, this`queue, this`segs, this`diskStart, this`diskId, this`trail, this`disks,
        this`gone
      ensures Ok(Now()) && Books() && V(Now()) == old(V(Now())) && CurId(Now()) == old(CurId(Now()))
      ensures Later(old(queue), queue)
      ensures old(HeadPending(queue) && DiskOk()) ==> HeadPending(queue) && DiskOk() && OnDisk()
      ensures Trailing(old(queue), old(trail))
      ensures old(HeadPending(queue) && DiskOk() && Follows(whole)) ==> Follows(whole)
      ensures queue == Counted(old(queue), i)
      ensures i == 0 && old(queue[0].writtenCnt) + 1 == old(queue[0].dataCnt) ==>
        |queue| < old(|queue|) && OnDisk() && DiskOk() && HeadPending(queue)
      ensures !(i == 0 && old(queue[0].writtenCnt) + 1 == old(queue[0].dataCnt)) ==>
        queue == old(queue)[i := old(queue)[i].(writtenCnt := old(queue)[i].writtenCnt + 1)]
      decreases 2
    {
      hide Ledger, Ok, V, CurId, Later, Wrap, Id, Told, Trails;
      var t := queue[i].(writtenCnt := queue[i].writtenCnt + 1);
      CountKeeps(Now(), i, t.writtenCnt);
      CountTold(Now(), i, t.writtenCnt, trail, diskStart, diskId, origin, disks, whole);
      LaterCount(queue, i, t.writtenCnt);
      LedgerCount(all, gone, queue, i, t.writtenCnt);
      queue := queue[i := t];
      if t.writtenCnt == t.dataCnt && i == 0 {
        ghost var q := queue;
        PassHead(whole);
        LaterTrans(old(queue), q, queue);
      }
    }

    /** The oldest transaction is finished: move on to the next unfinished one and write the superblock. */
    method PassHead(ghost whole: Option<Content>)
      requires Ok(Now()) && Books() && queue != [] && Finished(queue[0])
      modifies this`start, this`transId, this`queue, this`segs, this`diskStart, this`diskId, this`trail, this`disks,
        this`gone
      ensures Ok(Now()) && Books() && V(Now()) == old(V(Now())) && CurId(Now()) == old(CurId(Now()))
      ensures Later(old(queue), queue) && |queue| < old(|queue|) && queue == Strip(old(queue))
      ensures HeadPending(queue) && DiskOk() && OnDisk() && Trailing(old(queue), old(trail))
      ensures old(Follows(whole)) ==> Follows(whole)
      decreases 1
    {
      hide Ledger, Ok, V, CurId, Later, Wrap, Id, Told, Leads, NoTrail, Contents, Total, At;
      ghost var j := Now();
      DropHead();
      ghost var q := queue;
      Purge(false, false);
      LaterTrans(j.queue, q, queue);
      LaterShort(q, queue);
      HeadPassed(j, Now(), trail, old(diskStart), old(diskId), origin, disks, whole);
      WriteSuper(if queue == [] then NoTrail(Now()) else trail);
    }

    /** Start and id go to disk. */
    method WriteSuper(ghost d: Trail)
      modifies this`diskStart, this`diskId, this`trail, this`disks
      ensures Now() == old(Now()) && OnDisk() && trail == d && disks == old(disks) + [Disk(ring, start, transId)]
    {
      diskStart, diskId, trail, disks := start, transId, d, disks + [Disk(ring, start, transId)];
    }

    /** The oldest transaction leaves the queue. */
    method DropHead()
      requires Ok(Now()) && Books() && queue != [] && Finished(queue[0])
      modifies this`start, this`transId, this`queue, this`segs, this`gone
      ensures Ok(Now()) && Books() && V(Now()) == old(V(Now())) && CurId(Now()) == old(CurId(Now()))
      ensures queue == old(queue)[1..] && Later(old(queue), queue)
    {
      hide Ledger, Ok, V, CurId, Later, Wrap, Id;
      var t := queue[0];
      DropKeeps(Now());
      DropFields(Now());
      LaterDrop(queue);
      LedgerDrop(all, gone, queue);
      gone := gone + [t];
      start, transId, queue, segs := Wrap(g, t.startBlock + t.alloc), Id(t.id, 1), queue[1..], segs[1..];
    }

    /** Take finished transactions from the front of the queue, or with `flush` make the front one finish. */
    method Purge(flush: bool, once: bool)
      requires Ok(Now()) && Books()
      modifies this`start, this`transId, this`queue, this`segs, this`diskStart, this`diskId, this`trail, this`disks,
        this`gone
      ensures Ok(Now()) && Books() && V(Now()) == old(V(Now())) && CurId(Now()) == old(CurId(Now()))
      ensures Later(old(queue), queue)
      ensures !once && !flush ==> HeadPending(queue) && queue == Strip(old(queue))
      ensures once && old(queue) != [] ==>
        queue == if Finished(old(queue)[0]) then old(queue)[1..] else if flush then Flushed(old(queue)) else old(queue)
      ensures !once && flush ==> queue == []
      ensures flush && old(queue) != [] ==> |queue| < old(|queue|)
      ensures flush && old(HeadPending(queue) && DiskOk()) ==> HeadPending(queue) && DiskOk()
      ensures flush && old(HeadPending(queue)) ==> Trailing(old(queue), old(trail))
      ensures flush && old(HeadPending(queue) && DiskOk() && Follows(None)) ==> Follows(None)
      ensures !flush ==> trail == old(trail) && disks == old(disks)
      decreases if flush then 4 else 0
    {
      hide Ledger, Shape, Text, V, CurId, Later, Told, Leads;
      SameQueue(queue);
      while queue != []
        invariant Ok(Now()) && Books() && V(Now()) == old(V(Now())) && CurId(Now()) == old(CurId(Now()))
        invariant Later(old(queue), queue)
        invariant flush && old(HeadPending(queue) && DiskOk()) ==> HeadPending(queue) && DiskOk()
        invariant flush && old(HeadPending(queue)) ==> HeadPending(queue) && Trailing(old(queue), old(trail))
        invariant flush && old(HeadPending(queue) && DiskOk() && Follows(None)) ==> Follows(None)
        invariant !flush ==> trail == old(trail) && disks == old(disks)
        invariant |queue| < old(|queue|) || queue == old(queue)
        invariant !flush ==> Strip(queue) == Strip(old(queue))
        invariant once ==> queue == old(queue) && start == old(start) && transId == old(transId)
        invariant once ==> diskStart == old(diskStart) && diskId == old(diskId)
        decreases |queue|
      {
        ghost var q := queue;
        var t := queue[0];
        if t.dataCnt == 0 || t.dataCnt == t.writtenCnt {
          DropHead();
        } else if !flush {
          HeadCounts(Now());
          start, transId := Wrap(g, t.startBlock), t.id;
          LaterTrans(old(queue), old(queue), q);
          break;
        } else {
          HeadCounts(Now());
          FlushTrans();
        }
        LaterTrans(old(queue), q, queue);
        if once {
          break;
        }
      }
    }

    /** Write the remaining blocks of the oldest transaction to their home places. */
    method FlushTrans()
      requires Ok(Now()) && Books() && queue != [] && HeadPending(queue)
      modifies this`start, this`transId, this`queue, this`segs, this`diskStart, this`diskId, this`trail, this`disks,
        this`gone
      ensures Ok(Now()) && Books() && V(Now()) == old(V(Now())) && CurId(Now()) == old(CurId(Now()))
      ensures Later(old(queue), queue) && |queue| < old(|queue|) && queue == Flushed(old(queue))
      ensures HeadPending(queue) && OnDisk() && DiskOk()
      ensures Trailing(old(queue), old(trail))
      ensures old(DiskOk() && Follows(None)) ==> Follows(None)
      decreases 3
    {
      hide Ledger, Shape, Text, V, CurId, Later, Told, Leads;
      SameQueue(queue);
      HeadCounts(Now());
      var n: nat := queue[0].dataCnt - queue[0].writtenCnt;
      while n > 0
        invariant Ok(Now()) && Books() && V(Now()) == old(V(Now())) && CurId(Now()) == old(CurId(Now()))
        invariant Later(old(queue), queue)
        invariant n > 0 ==> queue == old(queue)[0 := old(queue)[0].(writtenCnt := old(queue)[0].dataCnt - n)]
        invariant n > 0 ==> queue[0].writtenCnt + n == queue[0].dataCnt
        invariant n == 0 ==> queue == Flushed(old(queue))
        invariant n == 0 ==> |queue| < old(|queue|) && HeadPending(queue) && OnDisk() && DiskOk()
        invariant Trailing(old(queue), old(trail))
        invariant old(DiskOk() && Follows(None)) ==> HeadPending(queue) && DiskOk() && Follows(None)
      {
        ghost var q := queue;
        CountDown(old(queue), q, n);
        EndWrite(0, None);
        LaterTrans(old(queue), q, queue);
        n := n - 1;
      }
    }

    /**
     * Give the next ring block to the transaction being written.  When that makes the ring full, one
     * old transaction is checkpointed; `ok` is the assertion that this made room.
     */
    method AllocBlock() returns (pos: nat, ok: bool)
      requires Valid() && Total(queue) + alloc < Length(g)
      modifies this`start, this`last, this`transId, this`queue, this`segs, this`alloc, this`diskStart, this`diskId,
        this`trail, this`disks, this`gone
      ensures Valid() && V(Now()) == old(V(Now())) && CurId(Now()) == old(CurId(Now()))
      ensures Later(old(queue), queue)
      ensures alloc == old(alloc) + 1 && pos == At(g, from, old(alloc)) == old(last)
      ensures ok <==> old(alloc) + 1 < Length(g)
      ensures ok ==> Total(queue) + alloc < Length(g)
      ensures Trailing(old(queue), old(trail))
      ensures old(Total(queue)) + alloc < Length(g) ==>
        queue == old(queue) && diskStart == old(diskStart) && diskId == old(diskId)
      ensures old(Total(queue)) + alloc == Length(g) && old(queue) != [] ==> queue == Flushed(old(queue))
    {
      hide Ledger, Flushed, Ok, V, CurId, Later, Total, Told, Leads;
      SameQueue(queue);
      LastIs(Now());
      pos := last;
      GrowKeeps(Now());
      SameShape(Now(), Grown(Now()));
      LeadsGrown(Now(), trail, diskStart, diskId);
      ToldSame(Now(), Grown(Now()), trail, diskStart, diskId, origin, disks, None);
      last := Wrap(g, last + 1);
      alloc := alloc + 1;
      ok := true;
      Meet(Now());
      if last == start {
        ghost var j := Now();
        Purge(true, true);
        ok := last != start;
        Meet(Now());
        LaterTotal(j, Now());
      }
    }

    // ----- writing a transaction -----

    /** The first block of the transaction is known as soon as it has one. */
    predicate Begun(first: nat)
      reads this
    {
      startBlock == if alloc == 0 then 0 else first
    }

    /** Which blocks of the transaction have been written, as far as the trail is concerned. */
    ghost predicate Solid(c: Cursor, closed: nat)
      reads this
    {
      queue == [] ==>
        if c.Closed? then trail.solid == alloc && trail.hole == g.maxlen
        else
          && (trail.solid == alloc || (trail.solid == closed && alloc == closed + 1))
          && (trail.hole == g.maxlen || trail.hole == closed)
    }

    ghost predicate SolidRevoke(c: RevokeCursor)
      reads this
    {
      queue == [] ==>
        && (trail.solid == alloc || (c.Listing? && trail.solid + 1 == alloc))
        && trail.hole == g.maxlen
    }

    /** Log one modified buffer: a tag in the open descriptor (or in a new one) and a data block. */
    method LogBlock(c0: Cursor, buf: Buf, lastTag: bool, ghost cs: seq<Logged>, ghost closed0: nat, ghost n0: nat,
                    ghost tags0: seq<Tag>, ghost rem: nat)
      returns (c: Cursor, ghost closed: nat, ghost n: nat, ghost tags: seq<Tag>)
      requires Valid() && Begun(from) && allocTransId == CurId(Now()) && Solid(c0, closed0)
      requires Writing(Now(), c0, cs, closed0, n0, tags0) && NoLast(tags0)
      requires |buf.data| == g.words && AddressFits(g, buf.lba)
      requires rem > 0 && alloc + Need(g, rem, Room(g, c0)) < Length(g) && Total(queue) + alloc < Length(g)
      modifies this`ring, this`start, this`last, this`transId, this`queue, this`segs, this`alloc, this`startBlock,
               this`diskStart, this`diskId, this`trail, this`disks, this`gone
      ensures Valid() && Begun(from) && CurId(Now()) == old(CurId(Now()))
      ensures Writing(Now(), c, cs + [Logged(buf.lba, buf.data)], closed, n, tags) && c.Open?
      ensures tags != [] && tags[|tags| - 1].last == lastTag && (!lastTag ==> NoLast(tags))
      ensures alloc + Need(g, rem - 1, Room(g, c)) == old(alloc) + Need(g, rem, Room(g, c0)) && alloc > old(alloc)
      ensures Total(queue) + alloc < Length(g) && Later(old(queue), queue)
      ensures Solid(c, closed) && Beyond(old(Now()), Now())
      ensures c0.Closed? || Room(g, c0) > 0 ==>
        && closed == closed0 && alloc == old(alloc) + (if c0.Closed? then 2 else 1)
        && Room(g, c) + 1 == if c0.Closed? then Cap(g) else Room(g, c0)
      ensures old(Total(queue)) + alloc < Length(g) ==>
        queue == old(queue) && diskStart == old(diskStart) && diskId == old(diskId)
    {
      hide Ledger, Told, Leads, Shape, Text, V, CurId, Later, Writing, Need, Room, Total, NoLast, Trails, Beyond, Cap;
      SameQueue(queue);
      WritingOk(Now(), c0, cs, closed0, n0, tags0);
      BeyondSelf(Now());
      var done := false;
      c, closed, n, tags := c0, closed0, n0, tags0;
      while !done
        invariant Valid() && Begun(from) && allocTransId == CurId(Now()) == old(CurId(Now())) && Solid(c, closed)
        invariant Total(queue) + alloc < Length(g) && Later(old(queue), queue) && Beyond(old(Now()), Now())
        invariant old(Total(queue)) + alloc < Length(g) ==>
          queue == old(queue) && diskStart == old(diskStart) && diskId == old(diskId)
        invariant !done ==> Writing(Now(), c, cs, closed, n, tags) && NoLast(tags) && alloc == old(alloc)
        invariant !done ==> Need(g, rem, Room(g, c)) == Need(g, rem, Room(g, c0))
        invariant !done ==> (c == c0 && closed == closed0) || (c.Closed? && c0.Open? && Room(g, c0) == 0)
        invariant done ==> Writing(Now(), c, cs + [Logged(buf.lba, buf.data)], closed, n, tags) && c.Open?
        invariant done ==> tags != [] && tags[|tags| - 1].last == lastTag && (!lastTag ==> NoLast(tags))
        invariant done ==> alloc + Need(g, rem - 1, Room(g, c)) == old(alloc) + Need(g, rem, Room(g, c0))
        invariant done ==> alloc > old(alloc)
        invariant done && (c0.Closed? || Room(g, c0) > 0) ==>
          && closed == closed0 && alloc == old(alloc) + (if c0.Closed? then 2 else 1)
          && Room(g, c) + 1 == if c0.Closed? then Cap(g) else Room(g, c0)
        decreases if done then 0 else if c.Closed? then 1 else 2
      {
        ghost var q, j := queue, Now();
        done, c, closed, n, tags := TryLog(c, buf, lastTag, cs, closed, n, tags, rem);
        LaterTrans(old(queue), q, queue);
        BeyondTrans(old(Now()), j, Now());
      }
    }

    /** One attempt at this; `done` is false when the open descriptor was full and has been written. */
    method TryLog(c0: Cursor, buf: Buf, lastTag: bool, ghost cs: seq<Logged>, ghost closed0: nat, ghost n0: nat,
                  ghost tags0: seq<Tag>, ghost rem: nat)
      returns (done: bool, c: Cursor, ghost closed: nat, ghost n: nat, ghost tags: seq<Tag>)
      requires Valid() && Begun(from) && allocTransId == CurId(Now()) && Solid(c0, closed0)
      requires Writing(Now(), c0, cs, closed0, n0, tags0) && NoLast(tags0)
      requires |buf.data| == g.words && AddressFits(g, buf.lba)
      requires rem > 0 && alloc + Need(g, rem, Room(g, c0)) < Length(g) && Total(queue) + alloc < Length(g)
      modifies this`ring, this`start, this`last, this`transId, this`queue, this`segs, this`alloc, this`startBlock,
               this`diskStart, this`diskId, this`trail, this`disks, this`gone
      ensures Valid() && Begun(from) && CurId(Now()) == old(CurId(Now()))
      ensures done <==> c0.Closed? || Room(g, c0) > 0
      ensures !done ==> c.Closed? && Writing(Now(), c, cs, closed, n, tags) && NoLast(tags)
      ensures !done ==> Need(g, rem, Room(g, c)) == Need(g, rem, Room(g, c0)) && alloc == old(alloc)
      ensures done ==> Writing(Now(), c, cs + [Logged(buf.lba, buf.data)], closed, n, tags) && c.Open?
      ensures done ==> tags != [] && tags[|tags| - 1].last == lastTag && (!lastTag ==> NoLast(tags))
      ensures done ==> alloc + Need(g, rem - 1, Room(g, c)) == old(alloc) + Need(g, rem, Room(g, c0))
      ensures done ==>
        && closed == closed0 && alloc == old(alloc) + (if c0.Closed? then 2 else 1)
        && Room(g, c) + 1 == if c0.Closed? then Cap(g) else Room(g, c0)
      ensures Total(queue) + alloc < Length(g) && Later(old(queue), queue)
      ensures Solid(c, closed) && Beyond(old(Now()), Now())
      ensures old(Total(queue)) + alloc < Length(g) ==>
        queue == old(queue) && diskStart == old(diskStart) && diskId == old(diskId)
    {
      hide Ledger, Told, Leads, Shape, Text, V, CurId, Later, Writing, Need, Room, Total, NoLast, ReadTag, Trails,
        Beyond, Cap;
      BeyondSelf(Now());
      c, closed, n, tags := c0, closed0, n0, tags0;
      WritingOk(Now(), c, cs, closed, n, tags);
      ClosedFacts(Now(), c, cs, closed, n, tags);
      SameQueue(queue);
      var escape := buf.data[0] == MAGIC;
      ghost var q, j := queue, Now();
      if c.Closed? {
        c := OpenNew(cs, closed, n, rem);
        q, j := queue, Now();
        tags := [];
        NoneLast();
        CapSome(g);
      }
      var tag := Tag(buf.lba, escape, lastTag, c.p == 3);
      FillingFacts(Now(), c, cs, closed, n, tags, tag);
      TagRoom(Now(), c, cs, closed, n, tags, tag);
      var fits, desc := WriteTag(g, c.desc, c.p, tag, uuid);
      if fits {
        c := AddData(c, desc, tag, buf.data, cs, closed, n, tags, rem);
        LaterTrans(old(queue), q, queue);
        BeyondTrans(old(Now()), j, Now());
        TagsAfter(tags, tag);
        tags := tags + [tag];
      } else {
        CloseBlock(c, cs, closed, n, tags, rem);
        c, closed, n, tags := Closed, alloc, |cs|, [];
        NoneLast();
      }
      done := fits;
    }

    method OpenNew(ghost cs: seq<Logged>, ghost closed: nat, ghost n: nat, ghost rem: nat) returns (c: Cursor)
      requires Valid() && Begun(from) && allocTransId == CurId(Now()) && Writing(Now(), Closed, cs, closed, n, [])
      requires Solid(Closed, closed)
      requires rem > 0 && alloc + Need(g, rem, 0) < Length(g) && Total(queue) + alloc < Length(g)
      modifies this`start, this`last, this`transId, this`queue, this`segs, this`alloc, this`startBlock,
               this`diskStart, this`diskId, this`trail, this`disks, this`gone
      ensures Valid() && Begun(from) && CurId(Now()) == old(CurId(Now()))
      ensures c.Open? && c.p == 3 && Writing(Now(), c, cs, closed, n, [])
      ensures alloc + Need(g, rem, Room(g, c)) == old(alloc) + Need(g, rem, 0)
      ensures Total(queue) + alloc < Length(g) && Later(old(queue), queue)
      ensures Solid(c, closed) && Beyond(old(Now()), Now())
      ensures alloc == old(alloc) + 1 && Room(g, c) == Cap(g)
      ensures old(Total(queue)) + alloc < Length(g) ==>
        queue == old(queue) && diskStart == old(diskStart) && diskId == old(diskId)
    {
      hide Ledger, Told, Leads, Shape, Text, V, CurId, Later, Writing, Need, Room, Total, Trails, Beyond;
      ghost var j := Now();
      WritingOk(j, Closed, cs, closed, n, []);
      ClosedFacts(j, Closed, cs, closed, n, []);
      NeedOpen(g, rem);
      var pos, ok := AllocBlock();
      assert ok;
      LastIs(Now());
      RingPos(Now(), alloc - 1);
      BeyondPut(j, Now(), alloc - 1, []);
      OpenDescriptor(j, cs, closed, n, Now(), ring[pos]);
      BeginsAt(j);
      c := Open(pos, WithHeader(ring[pos], DESCRIPTOR, allocTransId), 3);
      RoomOpen(g, pos, c.desc);
      if startBlock == 0 {
        startBlock := pos;
      }
    }

    method AddData(c: Cursor, desc: Block, tag: Tag, data: Block, ghost cs: seq<Logged>, ghost closed: nat,
                   ghost n: nat,
                   ghost tags: seq<Tag>, ghost rem: nat)
      returns (c': Cursor)
      requires Valid() && Begun(from) && c.Open? && Writing(Now(), c, cs, closed, n, tags) && NoLast(tags)
      requires Solid(c, closed)
      requires |data| == g.words && |desc| == |c.desc| && (forall i :: 0 <= i < c.p ==> desc[i] == c.desc[i])
      requires ReadTag(g, desc, c.p) == Some(tag) && (tag.uuid <==> c.p == 3)
      requires data != [] && (tag.escape <==> data[0] == MAGIC)
      requires c.p + TagSize(g, tag) <= g.words
      requires rem > 0 && alloc + Need(g, rem, Room(g, c)) < Length(g) && Total(queue) + alloc < Length(g)
      modifies this`ring, this`start, this`last, this`transId, this`queue, this`segs, this`alloc, this`diskStart,
        this`diskId, this`trail, this`disks, this`gone
      ensures Valid() && Begun(from) && CurId(Now()) == old(CurId(Now()))
      ensures c'.Open? && Writing(Now(), c', cs + [Logged(tag.block, data)], closed, n, tags + [tag]) && alloc > 0
      ensures alloc + Need(g, rem - 1, Room(g, c')) == old(alloc) + Need(g, rem, Room(g, c))
      ensures Total(queue) + alloc < Length(g) && Later(old(queue), queue)
      ensures Solid(c', closed) && Beyond(old(Now()), Now())
      ensures alloc == old(alloc) + 1 && Room(g, c') + 1 == Room(g, c)
      ensures old(alloc) < |V(Now())| && V(Now())[old(alloc)] == if tag.escape then data[0 := 0] else data
      ensures old(Total(queue)) + alloc < Length(g) ==>
        queue == old(queue) && diskStart == old(diskStart) && diskId == old(diskId)
    {
      hide Valid, Sound, Ledger, Told, Leads, Awaits, Shape, Text, V, CurId, Later, Writing, Need, Room, Total,
        NoLast, ReadTag, Trails, Beyond;
      ghost var j := Now();
      ValidOk();
      WritingOk(j, c, cs, closed, n, tags);
      NeedTag(j, c, cs, closed, n, tags, tag, desc, rem);
      WritingBegun(j, c, cs, closed, n, tags);
      OpenPlace(j, c, cs, closed, n, tags);
      Escaped(data, tag.escape);
      var d := if tag.escape then data[0 := 0] else data;
      DataBlock(d, c, closed);
      SoundOk();
      c' := Open(c.pos, desc, c.p + TagSize(g, tag));
      NoLastMeans(tags);
      AddCopy(j, c.pos, c.desc, c.p, cs, closed, n, tags, Now(), desc, tag, d, Logged(tag.block, data));
      SettleWriting(c', cs + [Logged(tag.block, data)], closed, n, tags + [tag]);
    }

    /** Write a data block behind the open descriptor. */
    method DataBlock(d: Block, ghost c: Cursor, ghost closed: nat)
      requires Valid() && Begun(from) && c.Open? && Solid(c, closed) && closed < alloc
      requires alloc + 1 < Length(g) && Total(queue) + alloc < Length(g) && |d| == g.words >= 4 && d[0] != MAGIC
      modifies this`ring, this`start, this`last, this`transId, this`queue, this`segs, this`alloc, this`diskStart,
        this`diskId, this`trail, this`disks, this`gone
      ensures Sound() && Awaits(Now(), trail, diskStart, diskId, origin, disks) && Begun(from) && Solid(c, closed)
      ensures CurId(Now()) == old(CurId(Now())) && alloc == old(alloc) + 1 <= |old(V(Now()))|
      ensures V(Now()) == old(V(Now()))[old(alloc) := d]
      ensures Total(queue) + alloc < Length(g) && Later(old(queue), queue) && Beyond(old(Now()), Now())
      ensures old(Total(queue)) + alloc < Length(g) ==>
        queue == old(queue) && diskStart == old(diskStart) && diskId == old(diskId)
    {
      hide Valid, Sound, Ledger, Told, Leads, Awaits, Shape, Text, V, CurId, Later, Total, Trails, Beyond;
      ghost var j := Now();
      ValidOk();
      ViewLength(j);
      var pos, ok := AllocBlock();
      ValidOk();
      assert ok;
      Write(pos, d, alloc - 1);
      SoundOk();
      BeyondPut(j, Now(), alloc - 1, d);
    }

    /** Put a block of the transaction in its place. */
    method Write(pos: nat, b: Block, ghost o: nat)
      requires Valid() && o < alloc && pos == At(g, from, o) && |b| == g.words && OfTxn(b, CurId(Now()))
      requires queue == [] ==> MayWrite(Now(), trail, o, b)
      modifies this`ring, this`trail, this`disks
      ensures Sound() && Awaits(Now(), trail, diskStart, diskId, origin, disks)
      ensures V(Now()) == old(V(Now()))[o := b] && CurId(Now()) == old(CurId(Now()))
      ensures trail == if queue == [] then After(old(Now()), old(trail), o) else old(trail)
    {
      hide Ledger, Ok, V, CurId, Trails, MayWrite, After, Told, Awaits;
      LastIs(Now());
      PutKeeps(Now(), o, b);
      AfterLag(Now(), trail, o);
      ToldPut(Now(), trail, diskStart, diskId, origin, disks, o, b,
              if queue == [] then After(Now(), trail, o) else trail);
      if queue == [] {
        TrailPut(Now(), trail, diskStart, diskId, o, b);
        trail := After(Now(), trail, o);
      }
      ring := ring[pos := b];
      disks := disks + [Disk(ring, diskStart, diskId)];
    }

    /** Also after this write recovery finds what it found before. */
    lemma SettleWriting(c: Cursor, cs: seq<Logged>, closed: nat, n: nat, tags: seq<Tag>)
      requires Sound() && Awaits(Now(), trail, diskStart, diskId, origin, disks)
      requires Writing(Now(), c, cs, closed, n, tags) && Solid(c, closed)
      ensures Valid()
    {
      hide Text, Shape, Writing, Trails, Awaits, Told, Half;
      WritingCloses(Now(), c, cs, closed, n, tags);
      if clean {
        HalfWriting(Now(), c, cs, closed, n, tags);
        StandsHalf(Now(), trail, cs[..n], closed, [], 0);
      }
      Settle(Now(), trail, diskStart, diskId, origin, disks);
    }

    lemma SettleRevoking(base: nat, cs: seq<Logged>, c: RevokeCursor, rs: seq<nat>, closed: nat, n: nat)
      requires Sound() && Awaits(Now(), trail, diskStart, diskId, origin, disks)
      requires RevokeWriting(Now(), base, c, rs, closed, n) && SolidRevoke(c)
      requires ReadsAs(g, CurId(Now()), V(Now())[..base], cs)
      ensures Valid()
    {
      hide Text, Shape, RevokeWriting, Trails, Awaits, Told, Half, ReadsAs, V, CurId;
      RevokingCloses(Now(), base, c, rs, closed, n);
      if clean {
        HalfRevoking(Now(), base, cs, c, rs, closed, n);
        StandsHalf(Now(), trail, cs, base, rs[..n], closed - base);
      }
      Settle(Now(), trail, diskStart, diskId, origin, disks);
    }

    method CloseBlock(c: Cursor, ghost cs: seq<Logged>, ghost closed: nat, ghost n: nat, ghost tags: seq<Tag>,
                      ghost rem: nat)
      requires Valid() && c.Open? && Writing(Now(), c, cs, closed, n, tags) && Solid(c, closed)
      requires tags != [] && (c.p + TagWords(g) > g.words || tags[|tags| - 1].last)
      modifies this`ring, this`trail, this`disks
      ensures Valid() && CurId(Now()) == old(CurId(Now())) && Writing(Now(), Closed, cs, alloc, |cs|, [])
      ensures Need(g, rem, Room(g, c)) == Need(g, rem, 0) || c.p + TagWords(g) <= g.words
      ensures Solid(Closed, alloc) && Beyond(old(Now()), Now())
    {
      hide Valid, Sound, Ledger, Told, Leads, Awaits, Shape, Text, V, CurId, Writing, Need, Room, Total, Trails,
        Beyond;
      ghost var j := Now();
      ValidOk();
      WritingOk(j, c, cs, closed, n, tags);
      OpenPlace(j, c, cs, closed, n, tags);
      RoomNone(g, c);
      Write(c.pos, c.desc, closed);
      SoundOk();
      BeyondPut(j, Now(), closed, c.desc);
      CloseDescriptor(j, c.pos, c.desc, c.p, cs, closed, n, tags, Now());
      SettleWriting(Closed, cs, alloc, |cs|, []);
    }

    /** Write descriptor and data blocks for the modified buffers of a transaction. */
    method Prepare(bufs: seq<Buf>) returns (dataCnt: nat)
      requires Valid() && alloc == 0 && startBlock == 0 && allocTransId == CurId(Now()) && Total(queue) < Length(g)
      requires BufsOk(g, bufs) && Need(g, |DirtyOf(bufs)|, 0) < Length(g)
      modifies this`ring, this`start, this`last, this`transId, this`queue, this`segs, this`alloc, this`startBlock,
               this`diskStart, this`diskId, this`trail, this`disks, this`gone
      ensures Valid() && Begun(from) && CurId(Now()) == old(CurId(Now()))
      ensures dataCnt == |DirtyOf(bufs)| && alloc == Need(g, dataCnt, 0)
      ensures ReadsAs(g, CurId(Now()), V(Now())[..alloc], DirtyOf(bufs))
      ensures Total(queue) + alloc < Length(g) && Later(old(queue), queue)
      ensures alloc == 0 ==> Now() == old(Now()) && diskStart == old(diskStart) && diskId == old(diskId)
      ensures alloc == 0 ==> trail == old(trail)
      ensures Solid(Closed, alloc) && Beyond(old(Now()), Now())
    {
      hide Valid, Ledger, Told, Leads, Shape, Text, V, CurId, Later, Writing, Need, Room, Total, NoLast, DirtyOf,
        ReadsAs, Trails, Beyond;
      ValidOk();
      StartSolid(Now(), trail, diskStart, diskId);
      BeyondSelf(Now());
      var n := TrimClean(bufs);
      dataCnt := n;
      ghost var total := |DirtyOf(bufs)|;
      ghost var cs: seq<Logged>, closed: nat, m: nat, tags: seq<Tag> := [], 0, 0, [];
      var c, i, idx := Closed, 0, 0;
      WritingStart(Now());
      ClosedFacts(Now(), c, cs, closed, m, tags);
      NoneLast();
      NoneDirty(bufs);
      SameQueue(queue);
      while idx < n
        invariant idx <= n && cs == DirtyOf(bufs[..idx]) && i == |cs| && dataCnt == |cs| + (n - idx)
        invariant Ok(Now()) && Valid() && Begun(from) && allocTransId == CurId(Now()) == old(CurId(Now()))
        invariant Writing(Now(), c, cs, closed, m, tags) && i <= total
        invariant idx < n ==> NoLast(tags)
        invariant idx == n > 0 ==> c.Open? && tags != [] && tags[|tags| - 1].last
        invariant idx == 0 ==> c.Closed?
        invariant alloc == 0 ==> c.Closed? && Now() == old(Now())
        invariant alloc == 0 ==> diskStart == old(diskStart) && diskId == old(diskId)
        invariant alloc == 0 ==> trail == old(trail)
        invariant Solid(c, closed) && Beyond(old(Now()), Now())
        invariant alloc + Need(g, total - i, Room(g, c)) == Need(g, total, 0)
        invariant Total(queue) + alloc < Length(g) && Later(old(queue), queue)
      {
        DirtySnoc(bufs, idx);
        DirtyMore(bufs, idx + 1, n);
        if !bufs[idx].dirty {
          dataCnt := dataCnt - 1;
        } else {
          ghost var q, j := queue, Now();
          c, closed, m, tags := LogBlock(c, bufs[idx], i == dataCnt - 1, cs, closed, m, tags, total - i);
          ValidOk();
          LaterTrans(old(queue), q, queue);
          BeyondTrans(old(Now()), j, Now());
          cs := cs + [Logged(bufs[idx].lba, bufs[idx].data)];
          i := i + 1;
        }
        idx := idx + 1;
      }
      if c.Open? {
        ghost var j := Now();
        CloseBlock(c, cs, closed, m, tags, 0);
        ValidOk();
        BeyondTrans(old(Now()), j, Now());
        closed, m, tags := alloc, |cs|, [];
        c := Closed;
      }
      NeedNone(g);
      ClosedFacts(Now(), c, cs, closed, m, tags);
      ClosedReads(Now(), cs, closed, m, tags);
    }

    /** List the revoked addresses in revoke blocks. */
    method PrepareRevoke(revokes: seq<nat>, ghost cs: seq<Logged>)
      requires Valid() && Begun(from) && allocTransId == CurId(Now()) && Total(queue) + alloc < Length(g)
      requires AddressesFit(g, revokes) && alloc + NeedRevoke(g, |revokes|, 0) < Length(g) && Solid(Closed, alloc)
      requires ReadsAs(g, CurId(Now()), V(Now())[..alloc], cs)
      modifies this`ring, this`start, this`last, this`transId, this`queue, this`segs, this`alloc, this`startBlock,
               this`diskStart, this`diskId, this`trail, this`disks, this`gone
      ensures Valid() && Begun(from) && CurId(Now()) == old(CurId(Now()))
      ensures alloc == old(alloc) + NeedRevoke(g, |revokes|, 0)
      ensures RevokeWriting(Now(), old(alloc), NoBlock, revokes, alloc, |revokes|)
      ensures ReadsAs(g, CurId(Now()), V(Now())[..old(alloc)], cs)
      ensures Total(queue) + alloc < Length(g) && Later(old(queue), queue)
      ensures if revokes == [] then Now() == old(Now()) && diskStart == old(diskStart) &&
        diskId == old(diskId) else alloc > 0
      ensures revokes == [] ==> trail == old(trail)
      ensures SolidRevoke(NoBlock) && Beyond(old(Now()), Now())
    {
      hide Ledger, Valid, Told, Leads, Shape, Text, V, CurId, Later, RevokeWriting, NeedRevoke, RevokeRoom, Total,
        ReadsAs, Trails, Beyond;
      ValidOk();
      BeyondSelf(Now());
      ghost var base, total := alloc, |revokes|;
      ghost var closed: nat, n: nat := alloc, 0;
      ViewLength(Now());
      ghost var v0 := V(Now())[..base];
      var c, idx := NoBlock, 0;
      RevokingStart(Now(), base);
      assert revokes[..0] == [];
      NoRevokeRoom(g);
      SameQueue(queue);
      while idx < |revokes|
        invariant Ok(Now()) && idx <= |revokes| && base <= alloc
        invariant idx == 0 ==> c.NoBlock? && Now() == old(Now()) && diskStart == old(diskStart) && diskId == old(diskId)
        invariant idx == 0 ==> trail == old(trail)
        invariant SolidRevoke(c) && Beyond(old(Now()), Now())
        invariant idx > 0 ==> alloc > 0
        invariant Valid() && Begun(from) && allocTransId == CurId(Now()) == old(CurId(Now()))
        invariant RevokeWriting(Now(), base, c, revokes[..idx], closed, n)
        invariant base <= |V(Now())| && V(Now())[..base] == v0
        invariant alloc + NeedRevoke(g, total - idx, RevokeRoom(g, c)) == base + NeedRevoke(g, total, 0)
        invariant Total(queue) + alloc < Length(g) && Later(old(queue), queue)
      {
        ghost var q, j := queue, Now();
        assert revokes[..idx + 1] == revokes[..idx] + [revokes[idx]];
        NeedRevokeStep(g, total - idx, c);
        c, closed, n := LogRevoke(c, revokes[idx], base, revokes[..idx], closed, n, total - idx, v0, cs);
        ValidOk();
        LaterTrans(old(queue), q, queue);
        BeyondTrans(old(Now()), j, Now());
        idx := idx + 1;
      }
      assert revokes[..idx] == revokes;
      if c.Listing? {
        ghost var j := Now();
        EndRevokeBlock(c, base, revokes, closed, n, v0, cs);
        ValidOk();
        BeyondTrans(old(Now()), j, Now());
        c, closed, n := NoBlock, alloc, |revokes|;
      }
      NoRevokeRoom(g);
      RevokesClosed(Now(), base, c, revokes, closed, n);
    }

    /** Add one address to the open revoke block, or to a new one when there is none or it is full. */
    method LogRevoke(c0: RevokeCursor, block: nat, ghost base: nat, ghost rs: seq<nat>, ghost closed0: nat,
                     ghost n0: nat,
                     ghost rem: nat, ghost v0: seq<Block>, ghost cs: seq<Logged>)
      returns (c: RevokeCursor, ghost closed: nat, ghost n: nat)
      requires Valid() && Begun(from) && allocTransId == CurId(Now()) && Total(queue) + alloc < Length(g)
      requires RevokeWriting(Now(), base, c0, rs, closed0, n0) && AddressFits(g, block) && SolidRevoke(c0)
      requires base <= |V(Now())| && V(Now())[..base] == v0 && ReadsAs(g, CurId(Now()), v0, cs)
      requires rem > 0 && alloc + NeedRevoke(g, rem, RevokeRoom(g, c0)) < Length(g)
      modifies this`ring, this`start, this`last, this`transId, this`queue, this`segs, this`alloc, this`startBlock,
               this`diskStart, this`diskId, this`trail, this`disks, this`gone
      ensures Valid() && Begun(from) && CurId(Now()) == old(CurId(Now())) && alloc >= old(alloc) && alloc > 0
      ensures RevokeWriting(Now(), base, c, rs + [block], closed, n)
      ensures base <= |V(Now())| && V(Now())[..base] == v0
      ensures alloc + NeedRevoke(g, rem - 1, RevokeRoom(g, c)) == old(alloc) + NeedRevoke(g, rem, RevokeRoom(g, c0))
      ensures Total(queue) + alloc < Length(g) && Later(old(queue), queue)
      ensures SolidRevoke(c) && Beyond(old(Now()), Now())
    {
      hide Ledger, Told, Leads, ReadsAs, Shape, Text, V, CurId, Later, RevokeWriting, NeedRevoke, RevokeRoom, Total,
        WithAddress, AddressFits, RevokeCap, Trails, Beyond;
      BeyondSelf(Now());
      c, closed, n := c0, closed0, n0;
      SameQueue(queue);
      RevokeFacts(Now(), base, c, rs, closed, n);
      NeedRevokeStep(g, rem, c);
      if c.Listing? && c.k == RevokeCap(g) {
        EndRevokeBlock(c, base, rs, closed, n, v0, cs);
        c, closed, n := NoBlock, alloc, |rs|;
        RevokeFacts(Now(), base, c, rs, closed, n);
      }
      if c.NoBlock? {
        ghost var j := Now();
        RevokesClosed(j, base, c, rs, closed, n);
        c := NewRevokeBlock(block, base, rs, closed, n);
        BeyondTrans(old(Now()), j, Now());
        assert V(Now())[..base] == V(j)[..base];
      } else {
        MoreRevoke(Now(), base, c.pos, c.b, c.k, rs, closed, n, block);
        c := Listing(c.pos, WithAddress(g, c.b, c.k, block), c.k + 1);
      }
    }

    method NewRevokeBlock(block: nat, ghost base: nat, ghost rs: seq<nat>, ghost closed: nat, ghost n: nat)
      returns (c: RevokeCursor)
      requires Valid() && Begun(from) && allocTransId == CurId(Now()) && alloc + 1 < Length(g)
      requires RevokeWriting(Now(), base, NoBlock, rs, closed, n) && AddressFits(g, block) && SolidRevoke(NoBlock)
      requires Total(queue) + alloc < Length(g)
      modifies this`start, this`last, this`transId, this`queue, this`segs, this`alloc, this`startBlock,
               this`diskStart, this`diskId, this`trail, this`disks, this`gone
      ensures Valid() && Begun(from) && CurId(Now()) == old(CurId(Now())) && alloc == old(alloc) + 1
      ensures c.Listing? && c.k == 1 && RevokeWriting(Now(), base, c, rs + [block], closed, n)
      ensures V(Now()) == old(V(Now()))
      ensures Total(queue) + alloc < Length(g) && Later(old(queue), queue)
      ensures SolidRevoke(c) && Beyond(old(Now()), Now())
    {
      hide Ledger, Told, Leads, Shape, Text, V, CurId, Later, RevokeWriting, Total, WithAddress, AddressFits,
        RevokeCap, Trails, Beyond;
      ghost var j := Now();
      BeginsAt(j);
      LastIs(j);
      var pos, ok := AllocBlock();
      assert ok;
      RingPos(Now(), alloc - 1);
      BeyondPut(j, Now(), alloc - 1, []);
      OpenRevoke(j, base, rs, closed, n, Now(), ring[pos], block);
      c := Listing(pos, WithAddress(g, WithHeader(ring[pos], REVOKE, allocTransId), 0, block), 1);
      if startBlock == 0 {
        startBlock := pos;
      }
    }

    method EndRevokeBlock(c: RevokeCursor, ghost base: nat, ghost rs: seq<nat>, ghost closed: nat, ghost n: nat,
                          ghost v0: seq<Block>, ghost cs: seq<Logged>)
      requires Valid() && c.Listing? && RevokeWriting(Now(), base, c, rs, closed, n) && SolidRevoke(c)
      requires base <= |V(Now())| && V(Now())[..base] == v0 && ReadsAs(g, CurId(Now()), v0, cs)
      modifies this`ring, this`trail, this`disks
      ensures Valid() && CurId(Now()) == old(CurId(Now())) && RevokeWriting(Now(), base, NoBlock, rs, alloc, |rs|)
      ensures base <= |V(Now())| && V(Now())[..base] == v0
      ensures SolidRevoke(NoBlock) && Beyond(old(Now()), Now())
    {
      hide Valid, Sound, Ledger, Told, Leads, Awaits, ReadsAs, Shape, Text, V, CurId, RevokeWriting, Total, Trails,
        Beyond;
      ghost var j := Now();
      ValidOk();
      ListingFacts(j, base, c, rs, closed, n);
      var b := c.b[3 := 16 + 4 * RecordWords(g) * c.k];
      Write(c.pos, b, closed);
      SoundOk();
      BeyondPut(j, Now(), closed, b);
      CloseRevoke(j, base, c.pos, c.b, c.k, rs, closed, n, Now(), b);
      assert V(j)[closed := b][..base] == V(j)[..base];
      SettleRevoking(base, cs, NoBlock, rs, alloc, |rs|);
    }

    /** Between transactions. */
    ghost predicate Quiet()
      reads this
    {
      Valid() && alloc == 0 && startBlock == 0 && from == last && allocTransId == CurId(Now()) &&
          Total(queue) < Length(g)
    }

    /** Start a session on whatever ring the last one has left. */
    constructor (g: Geometry, uuid: seq<Word>, ring: seq<Block>, sequence: Word)
      requires GeometryOk(g) && RingOk(g, ring) && |uuid| == 4
      ensures clean <==> Stale(ring[g.first..], 0, Id(sequence, 1))
      ensures all == [] && gone == []
      ensures Quiet() && queue == [] && OnDisk() && start == g.first && transId == Id(sequence, 1)
      ensures this.g == g && this.ring == ring && last == g.first
    {
      this.g, this.uuid, this.ring := g, uuid, ring;
      clean := Stale(ring[g.first..], 0, Id(sequence, 1));
      start, last, from, diskStart := g.first, g.first, g.first, g.first;
      transId, allocTransId, diskId := (sequence + 1) % WORD_LIMIT, (sequence + 1) % WORD_LIMIT,
          (sequence + 1) % WORD_LIMIT;
      queue, segs, alloc, startBlock := [], [], 0, 0;
      trail, all, gone := Trail([], [], 0, g.maxlen), [], [];
      disks := [Disk(ring, diskStart, diskId)];
      origin := Origin(false, [], Disk(ring, g.first, (sequence + 1) % WORD_LIMIT));
      new;
      FreshState(Now());
      TrailNow(Now());
    }

    /** Checkpoint everything and leave the journal empty.  The sequence number starts again from 0. */
    method Stop()
      requires Valid()
      modifies this`start, this`transId, this`queue, this`segs, this`diskStart, this`diskId, this`trail, this`disks,
        this`gone
      ensures Books() && queue == [] && diskStart == 0 && diskId == 0 && ring == old(ring)
    {
      hide Ledger, Told, Leads, Trails, Ok, Later, Finished, Strip;
      Purge(true, false);
      start, transId := 0, 0;
      diskStart, diskId := start, transId;
    }

    method WriteCommitBlock(ghost base: nat, ghost cs: seq<Logged>, ghost rs: seq<nat>)
      requires Valid() && Begun(from) && allocTransId == CurId(Now()) && Total(queue) + alloc < Length(g)
      requires alloc + 1 < Length(g) && base <= alloc && SolidRevoke(NoBlock)
      requires RevokeWriting(Now(), base, NoBlock, rs, alloc, |rs|) && ReadsAs(g, CurId(Now()), V(Now())[..base], cs)
      requires alloc > 0
      modifies this`ring, this`start, this`last, this`transId, this`queue, this`segs, this`alloc, this`diskStart,
        this`diskId, this`trail, this`disks, this`gone
      ensures Written(Content(cs, rs)) && Begun(from) && CurId(Now()) == old(CurId(Now())) && alloc == old(alloc) + 1
      ensures TxnReads(g, CurId(Now()), V(Now())[..alloc], cs, rs)
      ensures Total(queue) + alloc < Length(g) && Later(old(queue), queue)
      ensures SolidRevoke(NoBlock) && Beyond(old(Now()), Now())
    {
      hide Valid, Sound, Ledger, Told, Leads, Awaits, Shape, Text, V, CurId, Later, RevokeWriting, Total, ReadsAs,
        TxnReads, Trails, Beyond;
      ghost var j := Now();
      ValidOk();
      RevokeFacts(j, base, NoBlock, rs, alloc, |rs|);
      var pos, ok := AllocBlock();
      ValidOk();
      assert ok;
      RingPos(Now(), alloc - 1);
      var b := WithHeader(ring[pos], COMMIT, allocTransId);
      Write(pos, b, alloc - 1);
      SoundOk();
      BeyondPut(j, Now(), alloc - 1, b);
      WholeTxn(j, base, cs, rs, Now(), b);
      SettleWhole(Now(), trail, diskStart, diskId, origin, disks, Content(cs, rs));
    }

    /** The newest logged copy of each block named by `owners` needs no checkpoint any more. */
    method FinishRevoked(owners: seq<Word>, ghost c: Content)
      requires Written(c)
      modifies this`start, this`transId, this`queue, this`segs, this`diskStart, this`diskId, this`trail, this`disks,
        this`gone
      ensures Written(c) && V(Now()) == old(V(Now())) && CurId(Now()) == old(CurId(Now()))
      ensures Later(old(queue), queue) && Trailing(old(queue), old(trail))
      ensures queue == CountedAll(old(queue), owners)
    {
      hide Ledger, Told, Leads, Shape, Text, V, CurId, Later, Trails;
      SameQueue(queue);
      var n := 0;
      while n < |owners|
        invariant n <= |owners| && Written(c) && V(Now()) == old(V(Now())) && CurId(Now()) == old(CurId(Now()))
        invariant Trailing(old(queue), old(trail))
        invariant Later(old(queue), queue) && queue == CountedAll(old(queue), owners[..n])
      {
        assert owners[..n + 1][..n] == owners[..n] && owners[..n + 1][n] == owners[n];
        var i := Find(queue, owners[n]);
        if i < |queue| && queue[i].writtenCnt < queue[i].dataCnt {
          ghost var q := queue;
          LaterShort(old(queue), queue);
          EndWrite(i, Some(c));
          LaterTrans(old(queue), q, queue);
        }
        n := n + 1;
      }
      assert owners[..n] == owners;
    }

    /**
     * Commit a transaction: write it to the ring and put it into the checkpoint queue.
     * `owners` are the ids of the transactions that logged the revoked blocks last.
     */
    method Commit(bufs: seq<Buf>, revokes: seq<nat>, owners: seq<Word>)
      requires Quiet() && BufsOk(g, bufs) && AddressesFit(g, revokes)
      requires TxnBlocks(g, |DirtyOf(bufs)|, |revokes|) < Length(g)
      modifies this
      ensures Quiet() && g.first <= g.maxlen
      ensures Traced(old(Disk(ring, diskStart, diskId)), disks, Disk(ring, diskStart, diskId))
      ensures DirtyOf(bufs) == [] && revokes == [] ==>
        queue == old(queue) && ring == old(ring) && allocTransId == old(allocTransId) && all == old(all)
      ensures DirtyOf(bufs) != [] || revokes != [] ==>
        && allocTransId == Id(old(allocTransId), 1)
        && all == old(all) + [Trans(old(allocTransId), old(last), TxnBlocks(g, |DirtyOf(bufs)|, |revokes|),
                                    |DirtyOf(bufs)|, 0, Content(DirtyOf(bufs), revokes))]
        && (queue == [] ==> DirtyOf(bufs) == [])
        && (queue != [] ==>
              var t := queue[|queue| - 1];
              && t.id == old(allocTransId) && t.startBlock == old(last) && t.writtenCnt == 0
              && t.alloc == TxnBlocks(g, |DirtyOf(bufs)|, |revokes|)
              && t.dataCnt == |DirtyOf(bufs)| && t.content == Content(DirtyOf(bufs), revokes)
              && Later(old(queue), queue[..|queue| - 1]))
        && (old(clean && (queue == [] ==> |trail.lag| < WORD_LIMIT)) ==>
              exists p: nat ::
                && Atomic(g, disks, old(Contents(queue)), Kept(queue), Content(DirtyOf(bufs), revokes), p)
                && (DirtyOf(bufs) != [] ==> p < |disks|))
        && last == At(g, old(last), TxnBlocks(g, |DirtyOf(bufs)|, |revokes|))
        && Untouched(g, old(ring), ring, old(last), TxnBlocks(g, |DirtyOf(bufs)|, |revokes|))
    {
      hide Ledger, Told, Leads, Atomic, Traced, Contents, At, Wrap, BufsOk, AddressesFit, GeometryOk, RingOk, Shape,
        Text, V, CurId, Later, Total, TxnReads, TxnBlocks, DirtyOf, Trails, Untouched, Beyond;
      LastIs(Now());
      Watch();
      var id := allocTransId;
      var dataCnt := WriteTxn(bufs, revokes);
      if alloc == 0 {
        startBlock := 0;
        Unwatch();
        return;
      }
      BeyondRing(old(Now()), Now());
      LastIs(Now());
      ghost var q := queue;
      Conclude(id, dataCnt, Content(DirtyOf(bufs), revokes), owners);
      LaterRest(old(queue), q, queue);
    }

    /** From here on the disk is followed write by write. */
    ghost method Watch()
      requires Quiet()
      modifies this`origin, this`disks
      ensures Quiet() && origin == Outset(Now(), trail, diskStart, diskId)
    {
      hide Told, Trails, Ok;
      ToldBegins(Now(), trail, diskStart, diskId);
      origin, disks := Outset(Now(), trail, diskStart, diskId), [Disk(ring, diskStart, diskId)];
    }

    ghost method Unwatch()
      requires Valid()
      modifies this`origin
      ensures Valid() && Traced(old(origin.disk), disks, Disk(ring, diskStart, diskId))
    {
      hide Told, Trails, Text, Traced;
      TracedNow(Now(), trail, diskStart, diskId, origin, disks);
      origin := origin.(followed := false);
      ToldQuiet(Now(), trail, diskStart, diskId, origin, disks);
    }

    /** The commit block is written: the revoked blocks need no checkpoint, and the transaction is queued. */
    method Conclude(id: Word, dataCnt: nat, content: Content, owners: seq<Word>)
      requires Written(content) && Begun(from) && alloc > 0 && Total(queue) + alloc < Length(g) && SolidRevoke(NoBlock)
      requires id == allocTransId == CurId(Now()) && dataCnt == |content.copies|
      requires TxnReads(g, CurId(Now()), V(Now())[..alloc], content.copies, content.revokes)
      modifies this
      ensures Quiet() && ring == old(ring) && last == old(last) && allocTransId == Id(old(allocTransId), 1)
      ensures all == old(all) + [Trans(id, old(from), old(alloc), dataCnt, 0, content)]
      ensures var q, t := CountedAll(old(queue), owners), Trans(id, old(from), old(alloc), dataCnt, 0, content);
        queue == if q == [] && dataCnt == 0 then [] else q + [t]
      ensures queue != [] ==> Later(old(queue), queue[..|queue| - 1])
      ensures Traced(old(origin.disk), disks, Disk(ring, diskStart, diskId))
      ensures old(origin.followed) ==>
        exists p: nat :: Atomic(g, disks, old(origin.run), Kept(queue), content, p) &&
            (content.copies != [] ==> p < |disks|)
    {
      hide Ledger, Told, Leads, Atomic, Traced, Shape, Text, V, CurId, Later, Total, TxnReads, Trails;
      allocTransId := (allocTransId + 1) % WORD_LIMIT;
      FinishRevoked(owners, content);
      LaterFits(old(queue), queue);
      Enqueue(id, dataCnt, content);
    }

    /** Write descriptor, data, revoke and commit blocks; nothing at all if there is nothing to log. */
    method WriteTxn(bufs: seq<Buf>, revokes: seq<nat>) returns (dataCnt: nat)
      requires Quiet() && BufsOk(g, bufs) && AddressesFit(g, revokes)
      requires TxnBlocks(g, |DirtyOf(bufs)|, |revokes|) < Length(g)
      modifies this`ring, this`start, this`last, this`transId, this`queue, this`segs, this`alloc, this`startBlock,
               this`diskStart, this`diskId, this`trail, this`disks, this`gone
      ensures Sound() && Begun(from) && CurId(Now()) == old(CurId(Now())) && dataCnt == |DirtyOf(bufs)|
      ensures alloc == 0 <==> DirtyOf(bufs) == [] && revokes == []
      ensures alloc == 0 ==> Now() == old(Now()) && diskStart == old(diskStart) && diskId == old(diskId)
      ensures alloc == 0 ==> trail == old(trail) && Valid()
      ensures alloc > 0 ==> Written(Content(DirtyOf(bufs), revokes))
      ensures alloc > 0 ==>
        && alloc == TxnBlocks(g, |DirtyOf(bufs)|, |revokes|) && SolidRevoke(NoBlock)
        && TxnReads(g, CurId(Now()), V(Now())[..alloc], DirtyOf(bufs), revokes)
      ensures Total(queue) + alloc < Length(g) && Later(old(queue), queue) && Beyond(old(Now()), Now())
    {
      hide Ledger, Told, Leads, Shape, Text, V, CurId, Later, RevokeWriting, Total, ReadsAs, TxnReads, Need,
        NeedRevoke, DirtyOf, Trails, Beyond;
      ghost var copies := DirtyOf(bufs);
      NeedParts(g, |copies|, |revokes|);
      dataCnt := Prepare(bufs);
      ghost var base, q, j := alloc, queue, Now();
      PrepareRevoke(revokes, copies);
      BeyondTrans(old(Now()), j, Now());
      NeedNone(g);
      PartsPositive(g, |copies|);
      if dataCnt == 0 && revokes == [] {
        return;
      }
      LaterTrans(old(queue), q, queue);
      q, j := queue, Now();
      WriteCommitBlock(base, copies, revokes);
      BeyondTrans(old(Now()), j, Now());
      LaterTrans(old(queue), q, queue);
    }

    /** A complete transaction enters the checkpoint queue, unless there is nothing to checkpoint for it. */
    method Enqueue(id: Word, dataCnt: nat, content: Content)
      requires Written(content) && Begun(from) && alloc > 0 && Total(queue) + alloc < Length(g) && SolidRevoke(NoBlock)
      requires id == CurId(Now()) && allocTransId == Id(id, 1) && dataCnt == |content.copies|
      requires TxnReads(g, CurId(Now()), V(Now())[..alloc], content.copies, content.revokes)
      modifies this
      ensures Quiet() && ring == old(ring) && last == old(last) && allocTransId == old(allocTransId)
      ensures all == old(all) + [Trans(id, old(from), old(alloc), dataCnt, 0, content)]
      ensures if old(queue) == [] && dataCnt == 0 then queue == []
              else queue == old(queue) + [Trans(id, old(from), old(alloc), dataCnt, 0, content)]
      ensures old(origin.followed) ==>
        exists p: nat :: Atomic(g, disks, old(origin.run), Kept(queue), content, p) &&
            (content.copies != [] ==> p < |disks|)
      ensures Traced(old(origin.disk), disks, Disk(ring, diskStart, diskId))
    {
      if queue == [] && dataCnt == 0 {
        LeaveBehind(id, content);
      } else {
        JoinQueue(id, dataCnt, content);
      }
    }

    /** The transaction becomes the newest one of the queue; the first one of a queue goes into the superblock. */
    method JoinQueue(id: Word, dataCnt: nat, content: Content)
      requires Written(content) && Begun(from) && alloc > 0 && Total(queue) + alloc < Length(g)
      requires id == CurId(Now()) && allocTransId == Id(id, 1) && (queue != [] || dataCnt > 0)
      requires TxnReads(g, CurId(Now()), V(Now())[..alloc], content.copies, content.revokes)
      modifies this
      ensures Quiet() && ring == old(ring) && last == old(last) && allocTransId == old(allocTransId)
      ensures queue == old(queue) + [Trans(id, old(from), old(alloc), dataCnt, 0, content)]
      ensures all == old(all) + [Trans(id, old(from), old(alloc), dataCnt, 0, content)]
      ensures Traced(old(origin.disk), disks, Disk(ring, diskStart, diskId))
      ensures old(origin.followed) ==>
        exists p: nat :: Atomic(g, disks, old(origin.run), Kept(queue), content, p) && p < |disks|
    {
      hide Written, Valid, Sound, Follows, DiskOk, Books, Quiet, Ledger, Told, Atomic, Traced, Shape, Text, V, CurId,
        Total, TxnReads, Trails;
      ghost var j := Now();
      WrittenMeans(content);
      JoinFields(j, dataCnt, content);
      JoinKeeps(j, dataCnt, 0, content);
      var t := Trans(id, startBlock, alloc, dataCnt, 0, content);
      ToldEnds(j, trail, diskStart, diskId, origin, disks, content);
      if queue == [] {
        PointHere(id, content);
      }
      LedgerJoin(all, gone, queue, t);
      ghost var k := Joined(j, dataCnt, 0, content);
      Push(t, k);
      assert Kept(queue) == |j.queue|;
      ToldQuiet(k, trail, diskStart, diskId, origin, disks);
      QuietMeans();
    }

    /** The transaction goes to the end of the queue. */
    method Push(t: Trans, ghost k: State)
      requires k == Now().(queue := queue + [t], segs := k.segs, from := last, cur := 0)
      modifies this`queue, this`segs, this`from, this`alloc, this`startBlock, this`origin, this`all
      ensures Now() == k && alloc == 0 && startBlock == 0 && from == last && queue == old(queue) + [t]
      ensures all == old(all) + [t] && origin == old(origin).(followed := false)
    {
      queue, segs, from, alloc, startBlock := queue + [t], k.segs, last, 0, 0;
      all, origin := all + [t], origin.(followed := false);
    }

    /** The superblock is made to point to the transaction just written. */
    method PointHere(id: Word, ghost content: Content)
      requires Written(content) && Begun(from) && alloc > 0 && queue == [] && id == CurId(Now())
      modifies this`start, this`transId, this`diskStart, this`diskId, this`disks
      ensures Now() == old(Now()) && OnDisk()
      ensures Traced(old(origin.disk), disks, Disk(ring, diskStart, diskId))
      ensures old(origin.followed) ==>
        exists p: nat :: Atomic(g, disks, old(origin.run), Kept(queue), content, p) && p < |disks|
    {
      hide Ledger, Told, Atomic, Traced, Shape, Text, CurId, Total, Trails;
      assert Kept(queue) == |queue|;
      JoinFields(Now(), 0, content);
      ToldJoins(Now(), trail, diskStart, diskId, origin, disks, content);
      start, transId := Wrap(g, startBlock), id;
      diskStart, diskId, disks := start, transId, disks + [Disk(ring, start, transId)];
    }

    /** The journal goes on behind the transaction. */
    method Skip(id: Word, ghost t: Trans, ghost k: State)
      requires GeometryOk(g)
      requires k == Now().(start := Wrap(g, startBlock + alloc), transId := Id(id, 1), from := last, cur := 0)
      modifies this`start, this`transId, this`from, this`alloc, this`startBlock, this`origin, this`all, this`gone
      ensures Now() == k && alloc == 0 && startBlock == 0 && from == last
      ensures all == old(all) + [t] && gone == old(gone) + [t] && origin == old(origin).(followed := false)
    {
      start, transId, from, alloc, startBlock := Wrap(g, startBlock + alloc), (id + 1) % WORD_LIMIT, last, 0, 0;
      all, gone, origin := all + [t], gone + [t], origin.(followed := false);
    }

    /** A transaction that has nothing to checkpoint is left behind at once; the superblock on disk stays. */
    method LeaveBehind(id: Word, content: Content)
      requires Written(content) && Begun(from) && alloc > 0 && queue == [] && SolidRevoke(NoBlock)
      requires id == CurId(Now()) && allocTransId == Id(id, 1) && content.copies == []
      requires TxnReads(g, CurId(Now()), V(Now())[..alloc], content.copies, content.revokes)
      modifies this
      ensures Quiet() && ring == old(ring) && last == old(last) && allocTransId == old(allocTransId) && queue == []
      ensures all == old(all) + [Trans(id, old(from), old(alloc), 0, 0, content)]
      ensures diskStart == old(diskStart) && diskId == old(diskId)
      ensures old(origin.followed) ==>
        exists p: nat :: Atomic(g, disks, old(origin.run), Kept(queue), content, p)
      ensures Traced(old(origin.disk), disks, Disk(ring, diskStart, diskId))
    {
      hide Written, Valid, Sound, Follows, DiskOk, Books, Quiet, Ledger, Told, Atomic, Traced, Shape, Text, V, CurId,
        TxnReads, Trails;
      ghost var j := Now();
      WrittenMeans(content);
      ToldEnds(j, trail, diskStart, diskId, origin, disks, content);
      LeftBehind(j, content);
      TrailJoin(j, trail, diskStart, diskId, content);
      ghost var t := Trans(id, from, alloc, 0, 0, content);
      LedgerJoin(all, gone, queue, t);
      ghost var k := Dropped(Joined(j, 0, 0, content));
      trail := Longer(j, trail, content);
      Skip(id, t, k);
      assert Kept(queue) == |j.queue|;
      ToldQuiet(k, trail, diskStart, diskId, origin, disks);
      QuietMeans();
    }
  }

  lemma AfterLag(j: State, d: Trail, o: nat)
    requires j.g.first <= j.g.maxlen
    ensures After(j, d, o).lag == d.lag
  {
  }

  /** Counting a written block is no write to the journal. */
  lemma CountTold(j: State, i: nat, n: nat, d: Trail, at: nat, id: Word, s: Origin, disks: seq<Disk>,
                  whole: Option<Content>)
    requires Ok(j) && i < |j.queue| && n <= j.queue[i].dataCnt
    ensures var j' := j.(queue := j.queue[i := j.queue[i].(writtenCnt := n)]);
      Ok(j') && (Told(j, d, at, id, s, disks, whole) ==> Told(j', d, at, id, s, disks, whole))
  {
    hide Told, Shape, RunReads, Stale, Flat, V, Contents;
    var j' := j.(queue := j.queue[i := j.queue[i].(writtenCnt := n)]);
    CountKeeps(j, i, n);
    CountSame(j, i, n);
    SameShape(j, j');
    if Told(j, d, at, id, s, disks, whole) {
      ToldSame(j, j', d, at, id, s, disks, whole);
    }
  }

  lemma HeadPassed(j: State, j': State, d: Trail, at: nat, id: Word, s: Origin, disks: seq<Disk>,
                   whole: Option<Content>)
    requires Ok(j) && Ok(j') && Later(j.queue, j'.queue) && j.queue != [] && CurId(j') == CurId(j)
    requires j'.g == j.g && j'.from == j.from && j'.clean == j.clean && j'.ring == j.ring && j'.cur == j.cur
    ensures var d', x := if j'.queue == [] then NoTrail(j') else d, Disk(j'.ring, j'.start, j'.transId);
      && Leads(j', d', x.start, x.id)
      && (Told(j, d, at, id, s, disks, whole) ==> Told(j', d', x.start, x.id, s, disks + [x], whole))
  {
    hide Told, V, CurId, Later, Contents, Trails, Text;
    LaterContents(j.queue, j'.queue);
    SameShape(j, j');
    if j'.queue == [] {
      TrailNow(j');
    }
    if Told(j, d, at, id, s, disks, whole) {
      ToldDrop(j, j', d, at, id, s, disks, whole, if j'.queue == [] then NoTrail(j') else d);
    }
  }

  lemma LeadsGrown(j: State, d: Trail, at: nat, id: Word)
    requires Leads(j, d, at, id) && Ok(j) && Ok(Grown(j))
    ensures Leads(Grown(j), d, at, id)
  {
    hide Trails, Text;
    if j.queue == [] {
      TrailSame(j, Grown(j), d, at, id);
    }
  }

  lemma TracedNow(j: State, d: Trail, at: nat, id: Word, s: Origin, disks: seq<Disk>)
    requires Shape(j) && Told(j, d, at, id, s, disks, None)
    ensures Traced(s.disk, disks, Disk(j.ring, at, id))
  {
  }

  lemma LaterContents(a: seq<Trans>, b: seq<Trans>)
    requires Later(a, b)
    ensures Suffix(Contents(b), Contents(a))
  {
  }

  lemma WritingCloses(j: State, c: Cursor, cs: seq<Logged>, closed: nat, n: nat, tags: seq<Tag>)
    requires Writing(j, c, cs, closed, n, tags)
    ensures Shape(j) && n <= |cs| && closed <= j.cur && (c.Closed? ==> closed == j.cur)
  {
  }

  lemma RevokingCloses(j: State, base: nat, c: RevokeCursor, rs: seq<nat>, closed: nat, n: nat)
    requires RevokeWriting(j, base, c, rs, closed, n)
    ensures Shape(j) && n <= |rs| && base <= closed <= j.cur && (c.Listing? ==> closed + 1 == j.cur)
  {
  }

  /** What is known of the disks when the transaction is complete. */
  lemma ToldEnds(j: State, d: Trail, at: nat, id: Word, s: Origin, disks: seq<Disk>, c: Content)
    requires Shape(j) && Told(j, d, at, id, s, disks, Some(c))
    ensures Traced(s.disk, disks, Disk(j.ring, at, id))
    ensures s.followed ==>
      exists p: nat :: Atomic(j.g, disks, s.run, |j.queue|, c, p) && (j.queue != [] ==> p < |disks|)
  {
    hide Tiles, Traced, Stands, OldBack, NewBack;
    if s.followed {
      var p: nat :| Atomic(j.g, disks, s.run, |j.queue|, c, p) && (p == |disks| ==> !Reaches(j, d));
      assert j.queue != [] ==> p < |disks|;
    }
  }

  lemma SameQueue(queue: seq<Trans>)
    ensures Later(queue, queue)
  {
  }

  lemma LaterCount(queue: seq<Trans>, i: nat, n: nat)
    requires i < |queue|
    ensures Later(queue, queue[i := queue[i].(writtenCnt := n)])
  {
  }

  lemma LaterShort(a: seq<Trans>, b: seq<Trans>)
    requires Later(a, b)
    ensures |b| <= |a|
  {
  }

  lemma LaterDrop(queue: seq<Trans>)
    requires queue != []
    ensures Later(queue, queue[1..])
  {
  }

  lemma LaterRest(a: seq<Trans>, b: seq<Trans>, c: seq<Trans>)
    requires Later(a, b) && (c != [] ==> Later(b, c[..|c| - 1]))
    ensures c != [] ==> Later(a, c[..|c| - 1])
  {
    if c != [] {
      LaterTrans(a, b, c[..|c| - 1]);
    }
  }

  lemma HeadCounts(j: State)
    requires Ok(j) && j.queue != []
    ensures j.queue[0].writtenCnt <= j.queue[0].dataCnt
    ensures j.g.first <= j.g.maxlen && Wrap(j.g, j.queue[0].startBlock) == j.start && j.queue[0].id == j.transId
  {
  }

  lemma LastIs(j: State)
    requires Ok(j)
    ensures GeometryOk(j.g) && j.last == At(j.g, j.from, j.cur) && RingOk(j.g, j.ring)
  {
  }

  /** The end of the transaction being written reaches the oldest block exactly if the ring is full. */
  lemma Meet(j: State)
    requires Ok(j) && j.cur > 0
    ensures j.last == j.start <==> Total(j.queue) + j.cur == Length(j.g)
    ensures Total(j.queue) + j.cur <= Length(j.g)
    ensures Total(j.queue) == 0 <==> j.queue == []
  {
    TilesShort(j.g, j.queue, j.start, j.transId);
    if j.cur < Length(j.g) && j.queue != [] && Total(j.queue) + j.cur < Length(j.g) {
      AtDiffers(j.g, j.from, j.cur, Length(j.g) - Total(j.queue));
    }
  }

  lemma {:induction false} TotalLater(a: seq<Trans>, b: seq<Trans>)
    requires Later(a, b) && |b| < |a| && forall i :: 0 <= i < |a| ==> a[i].alloc > 0
    ensures Total(b) < Total(a)
    decreases |a|
  {
    if |b| + 1 < |a| {
      forall i | 0 <= i < |b| ensures b[i].(writtenCnt := 0) == a[1..][|a[1..]| - |b| + i].(writtenCnt := 0) {
      }
      TotalLater(a[1..], b);
    } else {
      forall i | 0 <= i < |b| ensures b[i].(writtenCnt := 0) == a[1..][i].(writtenCnt := 0) {
      }
      TotalSame(a[1..], b);
    }
  }

  lemma {:induction false} TotalSame(a: seq<Trans>, b: seq<Trans>)
    requires |a| == |b| && forall i :: 0 <= i < |a| ==> a[i].(writtenCnt := 0) == b[i].(writtenCnt := 0)
    ensures Total(a) == Total(b)
  {
    if a != [] {
      assert a[0].(writtenCnt := 0) == b[0].(writtenCnt := 0);
      forall i | 0 <= i < |a[1..]| ensures a[1..][i].(writtenCnt := 0) == b[1..][i].(writtenCnt := 0) {
      }
      TotalSame(a[1..], b[1..]);
    }
  }

  lemma LaterTotal(j: State, j': State)
    requires Ok(j) && Later(j.queue, j'.queue) && (j.queue != [] ==> |j'.queue| < |j.queue|)
    ensures j.queue != [] ==> Total(j'.queue) < Total(j.queue)
    ensures j.queue == [] ==> j'.queue == []
  {
    forall i | 0 <= i < |j.queue| ensures j.queue[i].alloc > 0 {
      TilesAt(j.g, j.queue, j.start, j.transId, i);
    }
    if j.queue != [] {
      TotalLater(j.queue, j'.queue);
    }
  }

  lemma CountKeeps(j: State, i: nat, n: nat)
    requires Ok(j) && i < |j.queue| && n <= j.queue[i].dataCnt
    ensures var j' := j.(queue := j.queue[i := j.queue[i].(writtenCnt := n)]);
      Ok(j') && V(j') == V(j) && CurId(j') == CurId(j)
  {
    hide RunReads, Stale, Flat, View, RingOk, GeometryOk;
    var j' := j.(queue := j.queue[i := j.queue[i].(writtenCnt := n)]);
    TilesCount(j.g, j.queue, j.start, j.transId, i, n);
    CountSame(j, i, n);
    hide Tiles, Contents, SegLengths, Total;
  }

  lemma CountSame(j: State, i: nat, n: nat)
    requires i < |j.queue| && SegLengths(j)
    ensures var q' := j.queue[i := j.queue[i].(writtenCnt := n)];
      Contents(q') == Contents(j.queue) && SegLengths(j.(queue := q'))
  {
  }

  lemma DropFields(j: State)
    requires Ok(j) && j.queue != []
    ensures j.queue[0].id == j.transId && j.segs != [] && j.g.first <= j.g.maxlen
    ensures Dropped(j) == j.(start := Wrap(j.g, j.queue[0].startBlock + j.queue[0].alloc),
      transId := Id(j.queue[0].id, 1),
                             queue := j.queue[1..], segs := j.segs[1..])
  {
  }

  // ----- writing -----

  ghost predicate NoLast(tags: seq<Tag>) {
    forall i :: 0 <= i < |tags| ==> !tags[i].last
  }

  lemma NoneLast()
    ensures NoLast([])
  {
  }

  lemma NoLastMeans(tags: seq<Tag>)
    requires NoLast(tags)
    ensures forall i :: 0 <= i < |tags| ==> !tags[i].last
  {
  }

  lemma TagsAfter(tags: seq<Tag>, tag: Tag)
    requires NoLast(tags)
    ensures !tag.last ==> NoLast(tags + [tag])
  {
  }

  lemma NeedOpen(g: Geometry, rem: nat)
    requires GeometryOk(g) && rem > 0
    ensures Need(g, rem, 0) == 1 + Need(g, rem, Cap(g)) && Need(g, rem, 0) > 0
  {
  }

  lemma RoomNone(g: Geometry, c: Cursor)
    requires GeometryOk(g) && c.Open?
    ensures c.p + TagWords(g) > g.words ==> Room(g, c) == 0
  {
  }

  lemma RingPos(j: State, o: nat)
    requires Ok(j) && o < Length(j.g)
    ensures At(j.g, j.from, o) < |j.ring| && |j.ring[At(j.g, j.from, o)]| == j.g.words >= 256
  {
  }

  lemma Escaped(data: Block, escape: bool)
    requires data != [] && (escape <==> data[0] == MAGIC)
    ensures var d := if escape then data[0 := 0] else data;
      d != [] && d[0] != MAGIC && |d| == |data| && Unescape(d, escape) == data
  {
  }

  lemma FillingFacts(j: State, c: Cursor, cs: seq<Logged>, closed: nat, n: nat, tags: seq<Tag>, tag: Tag)
    requires Writing(j, c, cs, closed, n, tags) && c.Open? && (tag.uuid <==> c.p == 3)
    ensures |c.desc| == j.g.words && 3 <= c.p <= j.g.words && (!j.g.wide ==> c.p % 2 == 1) && j.g.words % 2 == 0
    ensures tag.uuid ==> c.p + TagSize(j.g, tag) <= |c.desc|
    ensures tags == [] <==> c.p == 3
  {
  }

  lemma NeedTag(j: State, c: Cursor, cs: seq<Logged>, closed: nat, n: nat, tags: seq<Tag>, tag: Tag, desc': Block,
                rem: nat)
    requires Writing(j, c, cs, closed, n, tags) && c.Open? && (tag.uuid <==> c.p == 3) && rem > 0
    requires c.p + TagSize(j.g, tag) <= j.g.words
    ensures Need(j.g, rem, Room(j.g, c)) == 1 + Need(j.g, rem - 1,
      Room(j.g, Open(c.pos, desc', c.p + TagSize(j.g, tag))))
    ensures Need(j.g, rem, Room(j.g, c)) > 0
    ensures Room(j.g, Open(c.pos, desc', c.p + TagSize(j.g, tag))) + 1 == Room(j.g, c)
  {
    RoomTag(j.g, CurId(j), c.pos, c.desc, c.p, tags, V(j)[closed + 1..j.cur], cs[n..], tag, desc');
  }

  lemma CapSome(g: Geometry)
    requires GeometryOk(g)
    ensures Cap(g) > 0
  {
  }

  /** A tag fits exactly if there is room for one. */
  lemma TagRoom(j: State, c: Cursor, cs: seq<Logged>, closed: nat, n: nat, tags: seq<Tag>, tag: Tag)
    requires Writing(j, c, cs, closed, n, tags) && c.Open? && (tag.uuid <==> c.p == 3)
    ensures c.p + TagSize(j.g, tag) <= j.g.words <==> Room(j.g, c) > 0
  {
    RoomTag(j.g, CurId(j), c.pos, c.desc, c.p, tags, V(j)[closed + 1..j.cur], cs[n..], tag, c.desc);
  }

  lemma ClosedFacts(j: State, c: Cursor, cs: seq<Logged>, closed: nat, n: nat, tags: seq<Tag>)
    requires Writing(j, c, cs, closed, n, tags)
    ensures c.Closed? ==> tags == [] && closed == j.cur && n == |cs|
    ensures Room(j.g, Closed) == 0
  {
  }

  lemma BeginsAt(j: State)
    requires Ok(j)
    ensures At(j.g, j.from, 0) == j.from > 0
  {
  }

  lemma WritingBegun(j: State, c: Cursor, cs: seq<Logged>, closed: nat, n: nat, tags: seq<Tag>)
    requires Writing(j, c, cs, closed, n, tags) && c.Open?
    ensures j.cur > 0
  {
  }

  lemma OpenPlace(j: State, c: Cursor, cs: seq<Logged>, closed: nat, n: nat, tags: seq<Tag>)
    requires Writing(j, c, cs, closed, n, tags) && c.Open?
    ensures closed < j.cur && c.pos == At(j.g, j.from, closed) && |c.desc| == j.g.words
    ensures c.pos < |j.ring| && OfTxn(c.desc, CurId(j)) && (tags != [] ==> closed + 1 < j.cur)
  {
  }

  predicate BufsOk(g: Geometry, bufs: seq<Buf>) {
    forall i :: 0 <= i < |bufs| ==> |bufs[i].data| == g.words && AddressFits(g, bufs[i].lba)
  }

  predicate AddressesFit(g: Geometry, rs: seq<nat>) {
    forall i :: 0 <= i < |rs| ==> AddressFits(g, rs[i])
  }

  lemma NoneDirty(bufs: seq<Buf>)
    ensures DirtyOf(bufs[..0]) == []
  {
  }

  lemma NeedNone(g: Geometry)
    ensures forall room: nat :: Need(g, 0, room) == 0
  {
  }

  lemma ClosedReads(j: State, cs: seq<Logged>, closed: nat, n: nat, tags: seq<Tag>)
    requires Writing(j, Closed, cs, closed, n, tags)
    ensures j.cur <= |V(j)| && ReadsAs(j.g, CurId(j), V(j)[..j.cur], cs)
  {
    assert cs[..n] == cs;
  }

  lemma NoRevokeRoom(g: Geometry)
    ensures RevokeRoom(g, NoBlock) == 0 && forall room: nat :: NeedRevoke(g, 0, room) == 0
  {
  }

  lemma NeedRevokeStep(g: Geometry, rem: nat, c: RevokeCursor)
    requires rem > 0
    ensures RevokeRoom(g, c) == 0 ==> NeedRevoke(g, rem, 0) > 0
    ensures RevokeCap(g) > 0 ==> NeedRevoke(g, rem, 0) == 1 + NeedRevoke(g, rem - 1, RevokeCap(g) - 1)
    ensures RevokeRoom(g, c) > 0 ==>
      NeedRevoke(g, rem, RevokeRoom(g, c)) == NeedRevoke(g, rem - 1, RevokeRoom(g, c) - 1)
  {
  }

  lemma RevokeFacts(j: State, base: nat, c: RevokeCursor, rs: seq<nat>, closed: nat, n: nat)
    requires RevokeWriting(j, base, c, rs, closed, n)
    ensures GeometryOk(j.g) && RevokeCap(j.g) > 0 && RevokeRoom(j.g, NoBlock) == 0
    ensures c.Listing? ==> j.cur > 0 && c.k <= RevokeCap(j.g) && RevokeRoom(j.g, c) == RevokeCap(j.g) - c.k
    ensures forall pos, b, k :: 0 <= k <= RevokeCap(j.g) ==> RevokeRoom(j.g, Listing(pos, b, k)) == RevokeCap(j.g) - k
    ensures base <= j.cur <= |V(j)| == Length(j.g)
  {
    if c.Listing? {
      assert 4 + c.k * RecordWords(j.g) <= j.g.words;
      assert c.k <= (j.g.words - 4) / RecordWords(j.g);
    }
  }

  lemma RevokesClosed(j: State, base: nat, c: RevokeCursor, rs: seq<nat>, closed: nat, n: nat)
    requires RevokeWriting(j, base, c, rs, closed, n)
    ensures c.NoBlock? ==> closed == j.cur && n == |rs|
    ensures base <= j.cur <= |V(j)|
  {
  }

  lemma ListingFacts(j: State, base: nat, c: RevokeCursor, rs: seq<nat>, closed: nat, n: nat)
    requires RevokeWriting(j, base, c, rs, closed, n) && c.Listing?
    ensures GeometryOk(j.g) && |c.b| == j.g.words >= 256 && base <= closed < j.cur <= |V(j)| == Length(j.g)
    ensures c.pos == At(j.g, j.from, closed) && c.pos < |j.ring| && closed + 1 == j.cur && Marked(c.b, CurId(j))
    ensures 16 + 4 * RecordWords(j.g) * c.k < WORD_LIMIT
  {
    ListedReads(j.g, CurId(j), c.b, rs[n..]);
  }

  function Find(queue: seq<Trans>, id: Word): (i: nat)
    ensures i <= |queue|
    ensures i < |queue| ==> queue[i].id == id
  {
    if queue == [] || queue[0].id == id then 0 else 1 + Find(queue[1..], id)
  }

  lemma FreshState(j: State)
    requires GeometryOk(j.g) && RingOk(j.g, j.ring) && (j.clean ==> Stale(j.ring[j.g.first..], 0, j.transId))
    requires j.start == j.last == j.from == j.g.first && j.queue == [] && j.segs == [] && j.cur == 0
    ensures Ok(j) && CurId(j) == j.transId
  {
    assert V(j)[0..Length(j.g)] == j.ring[j.g.first..];
    assert V(j)[Length(j.g)..] == [];
  }

  lemma NeedParts(g: Geometry, n: nat, m: nat)
    ensures TxnBlocks(g, n, m) == Need(g, n, 0) + NeedRevoke(g, m, 0) + 1
  {
  }

  lemma PartsPositive(g: Geometry, n: nat)
    ensures n > 0 ==> Need(g, n, 0) > 0
  {
  }

  lemma {:induction false} LaterFits(a: seq<Trans>, b: seq<Trans>)
    requires Later(a, b)
    ensures Total(b) <= Total(a)
    decreases |a|
  {
    if |b| == |a| {
      TotalSame(a, b);
    } else {
      forall i | 0 <= i < |b| ensures b[i].(writtenCnt := 0) == a[1..][|a[1..]| - |b| + i].(writtenCnt := 0) {
      }
      LaterFits(a[1..], b);
    }
  }

  lemma JoinFields(j: State, dataCnt: nat, content: Content)
    requires Ok(j)
    ensures CurId(j) == Id(j.transId, |j.queue|) && Id(j.transId, 0) == j.transId
    ensures j.queue == [] ==> j.start == j.from == Wrap(j.g, j.from) && j.segs == []
    ensures |V(j)| >= j.cur && Total(j.queue + [Trans(CurId(j), j.from, j.cur, dataCnt, 0, content)]) ==
      Total(j.queue) + j.cur
    ensures Total([]) == 0
  {
    TotalAppend(j.queue, Trans(CurId(j), j.from, j.cur, dataCnt, 0, content));
  }

  /** Only the `n` blocks from `at` on may have changed. */
  ghost predicate Untouched(g: Geometry, ring: seq<Block>, ring': seq<Block>, at: nat, n: nat)
    requires g.first <= g.maxlen
  {
    && |ring'| == |ring|
    && forall o :: n <= o < Length(g) && At(g, at, o) < |ring| ==> ring'[At(g, at, o)] == ring[At(g, at, o)]
  }

  lemma BeyondRing(j: State, j': State)
    requires Beyond(j, j')
    ensures j.g.first <= j.g.maxlen && Untouched(j.g, j.ring, j'.ring, j.from, j'.cur)
  {
    hide Tiles;
    forall o | j'.cur <= o < Length(j.g) ensures j'.ring[At(j.g, j.from, o)] == j.ring[At(j.g, j.from, o)] {
      assert V(j')[j'.cur..][o - j'.cur] == V(j)[j'.cur..][o - j'.cur];
      assert V(j')[o] == V(j)[o];
    }
  }

  lemma LeftBehind(j: State, c: Content)
    requires Ok(j) && j.queue == [] && j.cur > 0
    requires TxnReads(j.g, CurId(j), V(j)[..j.cur], c.copies, c.revokes)
    ensures GeometryOk(j.g) && Joined(j, 0, 0, c).segs != [] && j.segs == []
    ensures var k := Dropped(Joined(j, 0, 0, c));
      && Ok(k) && CurId(k) == Id(CurId(j), 1) && CurId(j) == j.transId
      && k == j.(start := Wrap(j.g, j.from + j.cur), transId := Id(j.transId, 1), from := j.last, cur := 0)
  {
    JoinKeeps(j, 0, 0, c);
    DropKeeps(Joined(j, 0, 0, c));
    JoinedFields(j, c);
  }

  lemma StartSolid(j: State, d: Trail, at: nat, id: Word)
    requires j.cur == 0 && Leads(j, d, at, id)
    ensures j.queue == [] ==> d.solid == 0 && d.hole == j.g.maxlen
  {
  }
}
