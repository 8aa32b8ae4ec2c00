/** What a crash at any point of a journal session leaves for recovery. */
module JbdSession {
  import opened JbdFormat
  import opened JbdLog
  import opened JbdRecover
  import opened JbdText
  import opened JbdHistory
  import opened JbdRing
  import opened JbdState
  import opened JbdTrail
  import opened JbdWrite

  /** The journal as recovery would find it if the superblock points to the oldest transaction. */
  ghost function LogOf(j: State): Log {
    Log(j.g, j.ring, j.start, j.transId)
  }

  /** Reading from the oldest transaction on, the queue comes first and then the blocks from `from` on. */
  lemma ReadFromStart(j: State, o: nat)
    requires Ok(j) && o < Length(j.g)
    ensures LogOk(LogOf(j))
    ensures BlockAt(LogOf(j), o) ==
      if o < Total(j.queue) then V(j)[Length(j.g) - Total(j.queue) + o] else V(j)[o - Total(j.queue)]
  {
    hide Text, Tiles;
    AtAt(j.g, j.from, Length(j.g) - Total(j.queue), o);
  }

  lemma HoldsQueue(j: State)
    requires Ok(j)
    ensures LogOk(LogOf(j)) && |Flat(j.segs)| == Total(j.queue) && Holds(LogOf(j), 0, Flat(j.segs))
  {
    hide Shape, RunReads, Flat, SegLengths, Contents, Tiles, V, Stale, CurId, BlockAt, Total;
    ShapeFacts(j);
    ReadFromStart(j, 0);
    var L, n, fl := Length(j.g), Total(j.queue), Flat(j.segs);
    assert fl == V(j)[L - n..];
    forall i | 0 <= i < |fl| ensures BlockAt(LogOf(j), 0 + i) == fl[i] {
      ReadFromStart(j, i);
    }
  }

  // ----- a transaction that is only partly written -----

  /**
   * The transaction being written reads as the copies `cs` in `nd` blocks and the revocations `rs` in
   * the next `nr`.
   */
  ghost predicate Partly(j: State, cs: seq<Logged>, nd: nat, rs: seq<nat>, nr: nat)
    requires Shape(j)
  {
    && nd + nr <= j.cur
    && ReadsAs(j.g, CurId(j), V(j)[..nd], cs)
    && RevokesAs(j.g, CurId(j), V(j)[nd..nd + nr], rs)
  }

  /** And the block behind these does not continue it. */
  ghost predicate Half(j: State, cs: seq<Logged>, nd: nat, rs: seq<nat>, nr: nat)
    requires Shape(j)
  {
    Partly(j, cs, nd, rs, nr) && (nd + nr < Length(j.g) ==> !Marked(V(j)[nd + nr], CurId(j)))
  }

  /** The block behind the transaction being written is stale, or belongs to the oldest queued transaction. */
  lemma NextForeign(j: State)
    requires Ok(j) && j.clean && j.cur < Length(j.g)
    ensures |V(j)| == Length(j.g) && !Marked(V(j)[j.cur], CurId(j))
  {
    hide RunReads, Stale, Tiles, Flat, Signed, Id;
    if Total(j.queue) + j.cur < Length(j.g) {
      NextUnmarked(j);
    } else {
      QueueFacts(j);
      DropRun(j);
      FlatHead(j.segs);
      FirstAlloc(j.g, j.queue, j.start, j.transId);
      assert V(j)[j.cur..][0] == Flat(j.segs)[0] == j.segs[0][0];
      IdDiffers(j.transId, 0, |j.queue|);
      SignedFirst(j.segs[0], j.transId);
    }
  }

  lemma FirstAlloc(g: Geometry, queue: seq<Trans>, at: nat, id: Word)
    requires g.first <= g.maxlen && Tiles(g, queue, at, id) && Total(queue) > 0
    ensures queue != [] && queue[0].alloc > 0
  {
  }

  lemma SignedFirst(seg: seq<Block>, id: Word)
    requires seg != [] && Signed(seg, id)
    ensures forall id' :: Marked(seg[0], id') ==> id' == id
  {
  }

  /** Between transactions of a session that began on a clean ring. */
  lemma HalfIdle(j: State)
    requires Ok(j) && j.cur == 0 && j.clean
    ensures Half(j, [], 0, [], 0)
  {
    hide Text, Tiles;
    assert V(j)[..0] == [] && V(j)[0..0] == [];
    NextForeign(j);
  }

  /** While copies are being written. */
  lemma HalfWriting(j: State, c: Cursor, cs: seq<Logged>, closed: nat, n: nat, tags: seq<Tag>)
    requires Writing(j, c, cs, closed, n, tags) && j.clean
    ensures Half(j, cs[..n], closed, [], 0)
  {
    hide Text, Tiles, ReadsAs, Filling;
    assert V(j)[closed..closed + 0] == [];
    if c.Closed? && j.cur < Length(j.g) {
      NextForeign(j);
    }
  }

  /** While revocations are being written. */
  lemma HalfRevoking(j: State, base: nat, cs: seq<Logged>, c: RevokeCursor, rs: seq<nat>, closed: nat, n: nat)
    requires RevokeWriting(j, base, c, rs, closed, n) && ReadsAs(j.g, CurId(j), V(j)[..base], cs) && j.clean
    ensures Half(j, cs, base, rs[..n], closed - base)
  {
    hide Text, Tiles, ReadsAs, RevokesAs, Listed;
    if c.NoBlock? && j.cur < Length(j.g) {
      NextForeign(j);
    }
  }

  lemma HoldsCurrent(j: State, n: nat)
    requires Ok(j) && n <= j.cur
    ensures LogOk(LogOf(j)) && n <= |V(j)| && Holds(LogOf(j), Total(j.queue), V(j)[..n])
    ensures Total(j.queue) + n <= Length(j.g)
  {
    hide Shape, Text, Tiles, V, BlockAt, Total;
    ShapeFacts(j);
    ReadFromStart(j, 0);
    forall i | 0 <= i < n ensures BlockAt(LogOf(j), Total(j.queue) + i) == V(j)[..n][i] {
      ReadFromStart(j, Total(j.queue) + i);
    }
  }

  lemma Unexpected(j: State, o: nat)
    requires Ok(j) && o < Length(j.g) - Total(j.queue) && !Marked(V(j)[o], CurId(j))
    ensures LogOk(LogOf(j)) && Fits(LogOf(j), Total(j.queue) + o, |j.queue|)
    ensures Records(LogOf(j), Total(j.queue) + o, |j.queue|) == []
  {
    hide Text, Tiles, Total;
    ReadFromStart(j, Total(j.queue) + o);
    assert |V(j)[o]| == j.g.words;
  }

  lemma RingEnd(log: Log, k: nat)
    requires LogOk(log)
    ensures Fits(log, Length(log.g), k) && Records(log, Length(log.g), k) == []
  {
  }

  /** Such a transaction adds records, but no commit. */
  lemma HalfTail(j: State, cs: seq<Logged>, nd: nat, rs: seq<nat>, nr: nat)
    requires Ok(j) && Half(j, cs, nd, rs, nr)
    ensures LogOk(LogOf(j)) && Fits(LogOf(j), Total(j.queue), |j.queue|)
    ensures Commits(Records(LogOf(j), Total(j.queue), |j.queue|)) == 0
  {
    hide Shape, Text, Tiles, V, Total, ReadsAs, RevokesAs, Fits, Records, Holds, BlockAt, LogOk, Marked, Commits,
      Matches, RevokesExactly, Copies;
    var log, n, k, e := LogOf(j), Total(j.queue), |j.queue|, nd + nr;
    ShapeFacts(j);
    CurIdIs(j);
    HoldsCurrent(j, e);
    if e < Length(j.g) - n {
      Unexpected(j, e);
    } else {
      RingEnd(log, k);
    }
    var bs := V(j)[..e];
    HoldsPart(log, n, bs, 0, nd);
    HoldsPart(log, n, bs, nd, e);
    assert bs[0..nd] == V(j)[..nd] && bs[nd..e] == V(j)[nd..e];
    assert n + e == n + nd + |V(j)[nd..e]| && n + nd == n + |V(j)[..nd]|;
    var revs := RevokesRead(log, n + nd, k, V(j)[nd..e], rs);
    var ds := DescriptorsRead(log, n, k, V(j)[..nd], cs);
    assert revs + [] == revs;
    CommitsAppend(ds, revs);
  }

  lemma CurIdIs(j: State)
    ensures CurId(j) == Id(j.transId, |j.queue|)
  {
  }

  /**
   * At any moment of a session, also while a transaction is only partly written, the committed
   * part of the log says exactly what the queued transactions logged.
   */
  lemma JournalReads(j: State, cs: seq<Logged>, nd: nat, rs: seq<nat>, nr: nat)
    requires Ok(j) && Half(j, cs, nd, rs, nr)
    ensures LogOk(LogOf(j)) && Fits(LogOf(j), 0, 0) && Commits(Records(LogOf(j), 0, 0)) == |j.queue|
    ensures Says(LogOf(j), Committed(LogOf(j)), 0, Contents(j.queue))
  {
    hide Shape, Text, Fits, Records, LogOk, Says, Holds, Flat, Total, V, Contents, BlockAt, Header, CurId, Half,
      RunReads;
    var log, n, k := LogOf(j), Total(j.queue), |j.queue|;
    HoldsQueue(j);
    RunOf(j);
    HalfTail(j, cs, nd, rs, nr);
    var recs := RunRead(log, 0, 0, j.segs, Contents(j.queue));
    PrefixLive(log, recs, n, k, Contents(j.queue));
  }

  /** Once the commit block is written, the transaction counts. */
  lemma CompleteReads(j: State, c: Content)
    requires Ok(j) && j.clean && j.cur > 0 && TxnReads(j.g, CurId(j), V(j)[..j.cur], c.copies, c.revokes)
    ensures LogOk(LogOf(j)) && Fits(LogOf(j), 0, 0) && Commits(Records(LogOf(j), 0, 0)) == |j.queue| + 1
    ensures Says(LogOf(j), Committed(LogOf(j)), 0, Contents(j.queue) + [c])
  {
    hide Text, Fits, Records, LogOk, Says, TxnReads, Tiles, Total;
    JoinKeeps(j, 0, 0, c);
    var k := Joined(j, 0, 0, c);
    HalfIdle(k);
    JournalReads(k, [], 0, [], 0);
    assert LogOf(k) == LogOf(j) && Contents(k.queue) == Contents(j.queue) + [c];
  }

  lemma RunOf(j: State)
    requires Ok(j)
    ensures RunReads(j.g, j.transId, j.segs, 0, Contents(j.queue)) && |Contents(j.queue)| == |j.queue|
  {
  }

  lemma PrefixLive(log: Log, recs: seq<Record>, o: nat, k: nat, run: seq<Content>)
    requires LogOk(log) && Fits(log, 0, 0) && Fits(log, o, k) && |run| == k
    requires Records(log, 0, 0) == recs + Records(log, o, k) && Commits(Records(log, o, k)) == 0
    requires Says(log, recs, 0, run)
    ensures Commits(Records(log, 0, 0)) == k && Committed(log) == recs
  {
    var tail := Records(log, o, k);
    assert tail != [] ==> tail[0].txn == k by {
      if tail != [] {
        FirstRecord(log, o, k);
      }
    }
    hide Records, Fits;
    CommitsAppend(recs, tail);
    LiveSplit(recs, tail, k);
  }

  lemma {:induction false} LiveSplit(recs: seq<Record>, tail: seq<Record>, n: nat)
    requires forall i :: 0 <= i < |recs| ==> recs[i].txn < n
    requires tail != [] ==> tail[0].txn >= n
    ensures Live(recs + tail, n) == recs
  {
    if recs == [] {
      assert recs + tail == tail;
    } else {
      LiveSplit(recs[1..], tail, n);
      assert (recs + tail)[1..] == recs[1..] + tail;
    }
  }

  // ----- from the superblock on disk -----

  /** The journal as recovery finds it: the superblock on disk gives the first block and id. */
  ghost function DiskLog(j: State, at: nat, id: Word): Log {
    Log(j.g, j.ring, at, id)
  }

  lemma {:induction false} PureEntries(lag: seq<Trans>, k: nat)
    requires PureRevokes(lag)
    ensures Entries(Contents(lag), k) == []
    decreases |lag|
  {
    if lag != [] {
      assert Contents(lag)[1..] == Contents(lag[1..]);
      PureEntries(lag[1..], k + 1);
    }
  }

  /** Recovery finds no copy to replay. */
  ghost predicate NothingToReplay(log: Log) {
    LogOk(log) && Fits(log, 0, 0) && Copies(Committed(log)) == []
  }

  lemma IntactNothing(j: State, d: Trail, at: nat, id: Word, cs: seq<Logged>, nd: nat, rs: seq<nat>, nr: nat)
    requires Trails(j, d, at, id) && Intact(j, d) && Half(j, cs, nd, rs, nr) && nd + nr <= d.solid
    ensures NothingToReplay(DiskLog(j, at, id))
  {
    hide Text, Tiles, ReadsAs, RevokesAs, Records, Fits, LogOk, Committed;
    var k := Back(j, d, at, id);
    assert V(k) == V(j) && CurId(k) == CurId(j) by {
      assert Id(j.transId, 0) == j.transId;
    }
    assert Total(j.queue) == 0;
    assert Half(k, cs, nd, rs, nr);
    JournalReads(k, cs, nd, rs, nr);
    PureEntries(d.lag, 0);
  }

  lemma SpentNothing(j: State, d: Trail, at: nat, id: Word)
    requires TrailShape(j, d, at, id) && Spent(j, d, at, id) && |d.lag| < WORD_LIMIT
    ensures NothingToReplay(DiskLog(j, at, id))
  {
    hide Tiles;
    var log, b := DiskLog(j, at, id), j.ring[at];
    if |b| >= 4 && b[0] == MAGIC {
      var a :| 1 <= a <= |d.lag| && b[2] == Id(id, a);
      IdDiffers(id, 0, a);
    }
    assert BlockAt(log, 0) == b && !Expected(log, b, 0);
  }

  lemma BrokenNothing(j: State, d: Trail, at: nat, id: Word)
    requires TrailShape(j, d, at, id) && Broken(j, d, at, id)
    ensures NothingToReplay(DiskLog(j, at, id))
  {
    hide Tiles;
    var log, b := DiskLog(j, at, id), j.ring[at];
    AtAt(j.g, j.from, d.hole, 1);
    AtAt(j.g, at, 0, 0);
    assert BlockAt(log, 0) == b && BlockAt(log, 1)[0] != MAGIC && Id(id, 0) == id;
    assert forall k: nat :: !Expected(log, BlockAt(log, 1), k);
    assert forall k: nat :: Fits(log, 1, k) && Records(log, 1, k) == [];
    assert Fits(log, 0, 0);
    assert forall i :: 0 <= i < |Records(log, 0, 0)| ==> CopiesOf(Records(log, 0, 0)[i]) == [];
    assert |Records(log, 0, 0)| <= 1;
    if Committed(log) != [] {
      LivePrefix(Records(log, 0, 0), Commits(Records(log, 0, 0)));
      assert Committed(log)[1..] == [] && Copies([]) == [] && CopiesOf(Committed(log)[0]) == [];
    }
  }

  lemma NothingReplayed(log: Log, before: Store, after: Store, b: nat)
    requires NothingToReplay(log) && Restored(log, before, after, b)
    ensures Replayed([], before, after, b)
  {
    hide LogOk, Fits, Committed;
  }

  /** What the superblock on disk is known to lead to: the oldest queued transaction, or nothing to replay. */
  ghost predicate OnRecord(j: State, d: Trail, at: nat, id: Word) {
    if j.queue == [] then Trails(j, d, at, id) && |d.lag| < WORD_LIMIT else at == j.start && id == j.transId
  }

  /** Recovery puts back, for every block, the newest contents that the run logged. */
  ghost predicate Recalls(log: Log, run: seq<Content>) {
    && LogOk(log) && Fits(log, 0, 0)
    && forall before, after, b :: Restored(log, before, after, b) ==> Replayed(run, before, after, b)
  }

  lemma SaysRecalls(log: Log, run: seq<Content>)
    requires LogOk(log) && Fits(log, 0, 0) && Says(log, Committed(log), 0, run)
    ensures Recalls(log, run)
  {
    hide LogOk, Fits, Committed, Says, Restored, Replayed;
    forall before, after, b | Restored(log, before, after, b) ensures Replayed(run, before, after, b) {
      RunRestored(log, run, before, after, b);
    }
  }

  lemma NothingRecalls(log: Log)
    requires NothingToReplay(log)
    ensures Recalls(log, [])
  {
    hide LogOk, Fits, Committed, Restored, Replayed;
    forall before, after, b | Restored(log, before, after, b) ensures Replayed([], before, after, b) {
      NothingReplayed(log, before, after, b);
    }
  }

  /**
   * A crash at any moment, also with a transaction only partly written and with the superblock on
   * disk lagging behind: recovery puts back the newest contents that the queued transactions logged.
   */
  lemma CrashRecovers(j: State, d: Trail, at: nat, id: Word, cs: seq<Logged>, nd: nat, rs: seq<nat>, nr: nat)
    requires Ok(j) && Half(j, cs, nd, rs, nr) && OnRecord(j, d, at, id) && (j.queue == [] ==> nd + nr <= d.solid)
    ensures Recalls(DiskLog(j, at, id), Contents(j.queue))
  {
    hide Text, Half, Fits, Committed, Says, Trails, Contents, Recalls;
    if j.queue == [] {
      NothingBehind(j, d, at, id, cs, nd, rs, nr);
      NothingRecalls(DiskLog(j, at, id));
      NoContents(j.queue);
    } else {
      JournalReads(j, cs, nd, rs, nr);
      SaysRecalls(DiskLog(j, at, id), Contents(j.queue));
    }
  }

  lemma NothingBehind(j: State, d: Trail, at: nat, id: Word, cs: seq<Logged>, nd: nat, rs: seq<nat>, nr: nat)
    requires Trails(j, d, at, id) && |d.lag| < WORD_LIMIT && Half(j, cs, nd, rs, nr) && nd + nr <= d.solid
    ensures NothingToReplay(DiskLog(j, at, id))
  {
    hide Half, Fits, Committed, Ok, Spent, Broken, NothingToReplay;
    if Intact(j, d) {
      IntactNothing(j, d, at, id, cs, nd, rs, nr);
    } else if Spent(j, d, at, id) {
      SpentNothing(j, d, at, id);
    } else {
      BrokenNothing(j, d, at, id);
    }
  }

  lemma {:induction false} PureBefore(lag: seq<Trans>, c: Content, k: nat)
    requires PureRevokes(lag)
    ensures Entries(Contents(lag) + [c], k) == Stamp(c.copies, k + |lag|)
    decreases |lag|
  {
    var run := Contents(lag) + [c];
    if lag == [] {
      assert run == [c];
      OneContent(c, k);
    } else {
      assert run[1..] == Contents(lag[1..]) + [c];
      PureBefore(lag[1..], c, k + 1);
    }
  }

  /** Transactions without copies in front of the others make no difference. */
  lemma PureDropped(lag: seq<Trans>, c: Content, before: Store, after: Store, b: nat)
    requires PureRevokes(lag) && Replayed(Contents(lag) + [c], before, after, b)
    ensures Replayed([c], before, after, b)
  {
    var run, n := Contents(lag) + [c], |lag|;
    PureBefore(lag, c, 0);
    OneContent(c, 0);
    var es, es' := Entries(run, 0), Entries([c], 0);
    forall x ensures RevokedLater(run, x, n) <==> RevokedLater([c], x, 0) {
      if x in c.revokes {
        assert x in run[n].revokes && x in [c][0].revokes;
      }
    }
    assert |es| == |es'| && forall i :: 0 <= i < |es| ==> es[i] == Entry(n, es'[i].item) && es'[i].txn == 0;
    hide Entries, RevokedLater;
    forall i | 0 <= i < |es'| && NewestEntry([c], es', i) ensures NewestEntry(run, es, i) {
    }
  }

  lemma PureRecalls(log: Log, lag: seq<Trans>, c: Content)
    requires PureRevokes(lag) && Recalls(log, Contents(lag) + [c])
    ensures Recalls(log, [c])
  {
    hide LogOk, Fits, Restored, Replayed;
    forall before, after, b | Restored(log, before, after, b) ensures Replayed([c], before, after, b) {
      PureDropped(lag, c, before, after, b);
    }
  }

  /**
   * A crash between the commit block and the next write of the superblock.  If the superblock leads
   * to the transaction, recovery puts back all that it logged, and otherwise nothing of it.
   */
  lemma CommittedRecovers(j: State, d: Trail, at: nat, id: Word, c: Content)
    requires Ok(j) && j.clean && j.cur > 0 && TxnReads(j.g, CurId(j), V(j)[..j.cur], c.copies, c.revokes)
    requires OnRecord(j, d, at, id) && (j.queue == [] ==> d.solid == j.cur && d.hole == j.g.maxlen)
    ensures Recalls(DiskLog(j, at, id),
      Contents(j.queue) + if j.queue != [] || Intact(j, d) then [c] else [])
  {
    hide Text, Fits, Committed, Says, Recalls, Contents, TxnReads, Tiles, Spent, Ok;
    var log := DiskLog(j, at, id);
    NoContents(j.queue);
    if j.queue == [] && !Intact(j, d) {
      SpentNothing(j, d, at, id);
      NothingRecalls(log);
      assert Contents(j.queue) + [] == [];
    } else {
      var k := if j.queue == [] then Back(j, d, at, id) else j;
      BackSame(j, d, at, id);
      CompleteReads(k, c);
      SaysRecalls(log, Contents(k.queue) + [c]);
      if j.queue == [] {
        PureRecalls(log, d.lag, c);
        assert Contents(j.queue) + [c] == [c];
      }
    }
  }

  lemma BackSame(j: State, d: Trail, at: nat, id: Word)
    requires Ok(j) && j.queue == [] ==> Trails(j, d, at, id) && Intact(j, d)
    ensures Ok(j) && j.queue == [] ==>
      var k := Back(j, d, at, id);
      Shape(k) && V(k) == V(j) && CurId(k) == CurId(j) && k.clean == j.clean && k.queue == d.lag
  {
    hide Text, Tiles;
  }

  lemma NoContents(queue: seq<Trans>)
    ensures queue == [] ==> Contents(queue) == []
  {
  }

  /** The block that would be given out next belongs to no queued transaction and not to the one being written. */
  lemma NextBlockFree(j: State, i: nat, o: nat)
    requires Ok(j) && Total(j.queue) + j.cur < Length(j.g)
    ensures i < |j.queue| && o < j.queue[i].alloc ==> j.last != At(j.g, j.queue[i].startBlock, o)
    ensures o < j.cur ==> j.last != At(j.g, j.from, o)
  {
    hide Text, Tiles, At;
    if o < j.cur {
      AtDiffers(j.g, j.from, j.cur, o);
    }
    if i < |j.queue| && o < j.queue[i].alloc {
      QueuedBlock(j, i, o);
      AtDiffers(j.g, j.from, j.cur, Length(j.g) - Total(j.queue) + Total(j.queue[..i]) + o);
    }
  }

  lemma QueuedBlock(j: State, i: nat, o: nat)
    requires Ok(j) && i < |j.queue| && o < j.queue[i].alloc
    ensures var p := Length(j.g) - Total(j.queue) + Total(j.queue[..i]) + o;
      p < Length(j.g) && At(j.g, j.queue[i].startBlock, o) == At(j.g, j.from, p)
  {
    hide Text, Tiles, At;
    AtAt(j.g, j.from, Length(j.g) - Total(j.queue), 0);
    TilesAt(j.g, j.queue, j.start, j.transId, i);
    var d, p := Length(j.g) - Total(j.queue), Total(j.queue[..i]);
    AtAt(j.g, j.from, d, p);
    AtAt(j.g, j.from, d + p, o);
  }

  // ----- what an earlier session has left -----

  /** A complete transaction with number `k` begins at offset `o`. */
  ghost predicate BeginsTxn(log: Log, o: nat, k: nat)
    requires LogOk(log)
    decreases Length(log.g) - o
  {
    && o < Length(log.g)
    && var b := BlockAt(log, o);
    && Expected(log, b, k)
    && (|| b[1] == COMMIT
        || (b[1] == DESCRIPTOR && BeginsTxn(log, o + 1 + |TableOf(log.g, b)|, k))
        || (b[1] == REVOKE && BeginsTxn(log, o + 1, k)))
  }

  lemma {:induction false} BeginsCommits(log: Log, o: nat, k: nat)
    requires LogOk(log) && Fits(log, o, k)
    ensures BeginsTxn(log, o, k) <==> Commits(Records(log, o, k)) > 0
    decreases Length(log.g) - o
  {
    if Records(log, o, k) != [] {
      FirstRecord(log, o, k);
      if BlockAt(log, o)[1] != COMMIT {
        NextLater(log, o);
        BeginsCommits(log, NextAt(log, o), k);
      }
    }
  }

  lemma BeginsPast(log: Log, o: nat, k: nat)
    requires LogOk(log) && o < Length(log.g)
    ensures Header(BlockAt(log, o), DESCRIPTOR, Id(log.id, k)) ==>
      (BeginsTxn(log, o, k) <==> BeginsTxn(log, o + 1 + |TableOf(log.g, BlockAt(log, o))|, k))
    ensures Header(BlockAt(log, o), REVOKE, Id(log.id, k)) ==>
      (BeginsTxn(log, o, k) <==> BeginsTxn(log, o + 1, k))
  {
    hide TableOf, BlockAt;
  }

  /** Blocks that read as copies only lead on to the block behind them. */
  lemma {:induction false} CopiesBegin(log: Log, o: nat, k: nat, bs: seq<Block>, cs: seq<Logged>)
    requires LogOk(log) && Holds(log, o, bs) && ReadsAs(log.g, Id(log.id, k), bs, cs)
    ensures BeginsTxn(log, o, k) <==> BeginsTxn(log, o + |bs|, k)
    decreases |bs|
  {
    hide LogOk, BlockAt, Holds, TableOf, ChunkOk, BeginsTxn, ReadsAs, Header, Id;
    ReadsHead(log.g, Id(log.id, k), bs, cs);
    if bs != [] {
      HoldsFirst(log, o, bs);
      BeginsPast(log, o, k);
      var n := |TableOf(log.g, bs[0])|;
      HoldsPart(log, o, bs, 1 + n, |bs|);
      assert o + 1 + n + |bs[1 + n..]| == o + |bs| && bs[1 + n..|bs|] == bs[1 + n..];
      CopiesBegin(log, o + 1 + n, k, bs[1 + n..], cs[n..]);
    }
  }

  lemma {:induction false} RevokesBegin(log: Log, o: nat, k: nat, bs: seq<Block>, rs: seq<nat>)
    requires LogOk(log) && Holds(log, o, bs) && RevokesAs(log.g, Id(log.id, k), bs, rs)
    ensures BeginsTxn(log, o, k) <==> BeginsTxn(log, o + |bs|, k)
    decreases |bs|
  {
    hide LogOk, BlockAt, Holds, Revokes, BeginsTxn, RevokesAs, Header, Id;
    RevokesHead(log.g, Id(log.id, k), bs, rs);
    if bs != [] {
      HoldsFirst(log, o, bs);
      BeginsPast(log, o, k);
      HoldsPart(log, o, bs, 1, |bs|);
      assert o + 1 + |bs[1..]| == o + |bs| && bs[1..|bs|] == bs[1..];
      RevokesBegin(log, o + 1, k, bs[1..], rs[|Revokes(log.g, bs[0])|..]);
    }
  }

  /** The part of a transaction that is on the ring leaves it to the block behind whether it is taken as complete. */
  lemma PartBegins(j: State, cs: seq<Logged>, nd: nat, rs: seq<nat>, nr: nat)
    requires Ok(j) && Partly(j, cs, nd, rs, nr)
    ensures LogOk(LogOf(j))
    ensures var log, n, k := LogOf(j), Total(j.queue), |j.queue|;
      && (BeginsTxn(log, n, k) <==> BeginsTxn(log, n + nd + nr, k))
      && (Fits(log, n + nd + nr, k) ==> Fits(log, n, k))
  {
    hide Shape, Text, Tiles, V, Total, ReadsAs, RevokesAs, Fits, Records, Holds, BlockAt, LogOk, Marked, Commits,
      Matches, RevokesExactly, Copies, BeginsTxn;
    var log, n, k, e := LogOf(j), Total(j.queue), |j.queue|, nd + nr;
    ShapeFacts(j);
    CurIdIs(j);
    HoldsCurrent(j, e);
    var bs := V(j)[..e];
    HoldsPart(log, n, bs, 0, nd);
    HoldsPart(log, n, bs, nd, e);
    assert bs[0..nd] == V(j)[..nd] && bs[nd..e] == V(j)[nd..e];
    assert n + nd + nr == n + nd + |V(j)[nd..e]| && n + nd == n + |V(j)[..nd]|;
    RevokesBegin(log, n + nd, k, V(j)[nd..e], rs);
    CopiesBegin(log, n, k, V(j)[..nd], cs);
    if Fits(log, n + nd + nr, k) {
      var revs := RevokesRead(log, n + nd, k, V(j)[nd..e], rs);
      var ds := DescriptorsRead(log, n, k, V(j)[..nd], cs);
    }
  }

  /**
   * At any moment of any session, whatever was on the ring before it: the log says exactly what the
   * queued transactions logged if and only if the blocks behind the part of the next one that is on
   * the ring do not make it look complete.
   */
  lemma QueueReads(j: State, cs: seq<Logged>, nd: nat, rs: seq<nat>, nr: nat)
    requires Ok(j) && Partly(j, cs, nd, rs, nr)
    requires LogOk(LogOf(j)) && Fits(LogOf(j), Total(j.queue) + nd + nr, |j.queue|)
    ensures Fits(LogOf(j), 0, 0)
    ensures Says(LogOf(j), Committed(LogOf(j)), 0, Contents(j.queue)) <==>
      !BeginsTxn(LogOf(j), Total(j.queue) + nd + nr, |j.queue|)
  {
    hide Shape, Text, Fits, Records, LogOk, Holds, Flat, Total, V, Contents, BlockAt, CurId, RunReads, Says,
      BeginsTxn, Partly;
    var log, n, k := LogOf(j), Total(j.queue), |j.queue|;
    PartBegins(j, cs, nd, rs, nr);
    HoldsQueue(j);
    RunOf(j);
    var recs := RunRead(log, 0, 0, j.segs, Contents(j.queue));
    BeginsCommits(log, n, k);
    if BeginsTxn(log, n, k) {
      FollowsToo(log, recs, n, k, Contents(j.queue));
    } else {
      PrefixLive(log, recs, n, k, Contents(j.queue));
    }
  }

  /** The transactions that the superblock on disk leads to. */
  ghost function Led(j: State, d: Trail): seq<Trans> {
    if j.queue == [] then d.lag else j.queue
  }

  /** The superblock leads to the transaction being written, past queued or left-behind ones. */
  ghost predicate Reaches(j: State, d: Trail)
    requires j.g.first <= j.g.maxlen
  {
    j.queue != [] || Intact(j, d)
  }

  /**
   * The same from the superblock on disk, which may lag behind while the queue is empty.  If the block
   * it points to was written again, nothing is replayed.
   */
  lemma DiskReads(j: State, d: Trail, at: nat, id: Word, cs: seq<Logged>, nd: nat, rs: seq<nat>, nr: nat)
    requires Ok(j) && Partly(j, cs, nd, rs, nr) && OnRecord(j, d, at, id) && (j.queue == [] ==> nd + nr <= d.solid)
    requires LogOk(DiskLog(j, at, id))
    requires Reaches(j, d) ==> Fits(DiskLog(j, at, id), Total(Led(j, d)) + nd + nr, |Led(j, d)|)
    ensures Fits(DiskLog(j, at, id), 0, 0)
    ensures !Reaches(j, d) ==> NothingToReplay(DiskLog(j, at, id))
    ensures Reaches(j, d) ==>
      (Says(DiskLog(j, at, id), Committed(DiskLog(j, at, id)), 0, Contents(Led(j, d))) <==>
       !BeginsTxn(DiskLog(j, at, id), Total(Led(j, d)) + nd + nr, |Led(j, d)|))
  {
    hide Text, Tiles, ReadsAs, RevokesAs, Records, Fits, LogOk, Committed, Says, BeginsTxn, Spent, Broken, Total;
    if Reaches(j, d) {
      SeenPartly(j, d, at, id, cs, nd, rs, nr);
      QueueReads(Seen(j, d, at, id), cs, nd, rs, nr);
    } else if Spent(j, d, at, id) {
      SpentNothing(j, d, at, id);
    } else {
      BrokenNothing(j, d, at, id);
    }
  }

  /** The state as the superblock on disk shows it. */
  ghost function Seen(j: State, d: Trail, at: nat, id: Word): State
    requires j.g.first <= j.g.maxlen
  {
    if j.queue == [] then Back(j, d, at, id) else j
  }

  lemma SeenPartly(j: State, d: Trail, at: nat, id: Word, cs: seq<Logged>, nd: nat, rs: seq<nat>, nr: nat)
    requires Ok(j) && Partly(j, cs, nd, rs, nr) && OnRecord(j, d, at, id) && (j.queue == [] ==> nd + nr <= d.solid)
    requires Reaches(j, d)
    ensures Ok(Seen(j, d, at, id)) && Partly(Seen(j, d, at, id), cs, nd, rs, nr)
    ensures LogOf(Seen(j, d, at, id)) == DiskLog(j, at, id) && Seen(j, d, at, id).queue == Led(j, d)
    ensures V(Seen(j, d, at, id)) == V(j) && CurId(Seen(j, d, at, id)) == CurId(j)
  {
    hide Text, Tiles, ReadsAs, RevokesAs, Total;
    BackSame(j, d, at, id);
  }

  /**
   * If the block behind the part on the ring is a commit block left by a session that counted its ids
   * from the same number, recovery takes this part for the whole transaction.
   */
  lemma PartReplayed(j: State, cs: seq<Logged>, nd: nat, rs: seq<nat>, nr: nat)
    requires Ok(j) && Partly(j, cs, nd, rs, nr) && Total(j.queue) + nd + nr < Length(j.g)
    requires Header(V(j)[nd + nr], COMMIT, CurId(j)) && LogOk(LogOf(j))
    requires Fits(LogOf(j), Total(j.queue) + nd + nr + 1, |j.queue| + 1)
    requires !BeginsTxn(LogOf(j), Total(j.queue) + nd + nr + 1, |j.queue| + 1)
    ensures Fits(LogOf(j), 0, 0) && Says(LogOf(j), Committed(LogOf(j)), 0, Contents(j.queue) + [Content(cs, rs)])
  {
    hide Text, Fits, Records, LogOk, Holds, Flat, Total, Contents, BlockAt, CurId, RunReads, Says, BeginsTxn, ReadsAs,
      RevokesAs, Header, Tiles, V, Shape;
    var log, n, k, e := LogOf(j), Total(j.queue), |j.queue|, nd + nr;
    ShapeFacts(j);
    CurIdIs(j);
    HoldsQueue(j);
    RunOf(j);
    var seg, c := V(j)[..e + 1], Content(cs, rs);
    assert seg[..nd] == V(j)[..nd] && seg[nd..e] == V(j)[nd..e];
    assert SplitReads(j.g, CurId(j), seg, cs, rs, nd, nr);
    RunMore(j.g, j.transId, j.segs, Contents(j.queue), seg, c);
    FlatAppend(j.segs, seg);
    HoldsMore(j, e + 1);
    var recs := RunRead(log, 0, 0, j.segs + [seg], Contents(j.queue) + [c]);
    BeginsCommits(log, n + e + 1, k + 1);
    PrefixLive(log, recs, n + e + 1, k + 1, Contents(j.queue) + [c]);
  }

  lemma RunMore(g: Geometry, id: Word, segs: seq<seq<Block>>, run: seq<Content>, seg: seq<Block>, c: Content)
    requires RunReads(g, id, segs, 0, run) && TxnReads(g, Id(id, |run|), seg, c.copies, c.revokes)
    ensures RunReads(g, id, segs + [seg], 0, run + [c])
  {
    hide TxnReads, Id;
    var segs', run' := segs + [seg], run + [c];
    forall i | 0 <= i < |segs'| ensures TxnReads(g, Id(id, 0 + i), segs'[i], run'[i].copies, run'[i].revokes) {
      if i < |segs| {
        assert TxnReads(g, Id(id, 0 + i), segs[i], run[i].copies, run[i].revokes);
      }
    }
  }

  lemma HoldsMore(j: State, n: nat)
    requires Ok(j) && Total(j.queue) + n <= Length(j.g)
    ensures LogOk(LogOf(j)) && n <= |V(j)| && Holds(LogOf(j), 0, Flat(j.segs) + V(j)[..n])
    ensures |Flat(j.segs)| == Total(j.queue)
  {
    hide Shape, Text, Tiles, V, BlockAt, Total, Flat;
    ShapeFacts(j);
    ReadFromStart(j, 0);
    HoldsQueue(j);
    var all, m := Flat(j.segs) + V(j)[..n], Total(j.queue);
    forall i | 0 <= i < |all| ensures BlockAt(LogOf(j), 0 + i) == all[i] {
      if i < m {
        assert BlockAt(LogOf(j), 0 + i) == Flat(j.segs)[i];
      } else {
        ReadFromStart(j, i);
      }
    }
  }

  lemma FollowsToo(log: Log, recs: seq<Record>, o: nat, k: nat, run: seq<Content>)
    requires LogOk(log) && Fits(log, 0, 0) && Fits(log, o, k) && |run| == k
    requires Records(log, 0, 0) == recs + Records(log, o, k) && Commits(Records(log, o, k)) > 0
    requires Says(log, recs, 0, run)
    ensures !Says(log, Committed(log), 0, run)
  {
    hide Records, Fits, Entries, Copies, Agree, RevokesRun, LogOk;
    var tail, all := Records(log, o, k), Records(log, 0, 0);
    CommitFound(log, o, k, k);
    var i :| 0 <= i < |tail| && tail[i] == Commit(k);
    assert all[|recs| + i] == Commit(k);
    CommittedIs(log, |recs| + i);
    assert Committed(log)[|recs| + i].txn == k;
  }

  /** A session that began on a clean ring meets this condition at every moment. */
  lemma CleanMeets(j: State, cs: seq<Logged>, nd: nat, rs: seq<nat>, nr: nat)
    requires Ok(j) && Half(j, cs, nd, rs, nr)
    ensures LogOk(LogOf(j)) && Fits(LogOf(j), Total(j.queue) + nd + nr, |j.queue|)
    ensures !BeginsTxn(LogOf(j), Total(j.queue) + nd + nr, |j.queue|)
  {
    hide Text, Tiles, ReadsAs, RevokesAs, Total, Fits, Records, BeginsTxn, Commits, LogOk;
    HalfTail(j, cs, nd, rs, nr);
    BeginsCommits(LogOf(j), Total(j.queue), |j.queue|);
    PartBegins(j, cs, nd, rs, nr);
    if nd + nr < Length(j.g) - Total(j.queue) {
      Unexpected(j, nd + nr);
    } else {
      RingEnd(LogOf(j), |j.queue|);
    }
  }

  /**
   * If the block behind the newest transaction starts a complete transaction with the next id, left
   * over from a session that counted its ids from the same number, recovery replays it too.
   */
  lemma LeftoverReplayed(log: Log, segs: seq<seq<Block>>, run: seq<Content>, seg: seq<Block>, old_: Content)
    requires LogOk(log) && Holds(log, 0, Flat(segs) + seg) && RunReads(log.g, log.id, segs, 0, run)
    requires TxnReads(log.g, Id(log.id, |run|), seg, old_.copies, old_.revokes)
    requires |Flat(segs) + seg| < Length(log.g) ==> !Expected(log, BlockAt(log, |Flat(segs) + seg|), |run| + 1)
    ensures Fits(log, 0, 0) && Says(log, Committed(log), 0, run + [old_])
  {
    hide LogOk, Holds, TxnReads, Fits, Says, Expected, BlockAt, RunReads;
    FlatAppend(segs, seg);
    RunMore(log.g, log.id, segs, run, seg, old_);
    WholeRun(log, segs + [seg], run + [old_]);
  }
}
