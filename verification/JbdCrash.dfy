/**
 * Whole sessions of the journal: a crash at every stage of a commit, and two sessions one after the
 * other on the same ring.
 */
module JbdCrash {
  import opened JbdFormat
  import opened JbdLog
  import opened JbdRecover
  import opened JbdText
  import opened JbdHistory
  import opened JbdRing
  import opened JbdState
  import opened JbdTrail
  import opened JbdTags
  import opened JbdWrite
  import opened JbdJournal
  import opened JbdSession
  import opened JbdStory

  /** The journal that recovery finds on disk. */
  ghost function Found(j: Journal): Log
    reads j
  {
    DiskLog(j.Now(), j.diskStart, j.diskId)
  }

  /**
   * The session began on a clean ring, and fewer than 2^32 transactions without copies were
   * committed since the superblock was written.
   */
  ghost predicate Regular(j: Journal)
    reads j
  {
    j.clean && (j.queue == [] ==> |j.trail.lag| < WORD_LIMIT)
  }

  lemma CrashIdle(j: Journal)
    requires j.Quiet() && Regular(j)
    ensures Recalls(Found(j), Contents(j.queue))
  {
    hide Ok, Trails, Recalls, Contents, Total, Told;
    HalfIdle(j.Now());
    CrashRecovers(j.Now(), j.trail, j.diskStart, j.diskId, [], 0, [], 0);
  }

  /** A crash while a transaction is only partly on the ring. */
  lemma CrashMidway(j: Journal, cs: seq<Logged>, nd: nat, rs: seq<nat>, nr: nat)
    requires j.Sound() && Regular(j) && Half(j.Now(), cs, nd, rs, nr) && (j.queue == [] ==> nd + nr <= j.trail.solid)
    ensures Recalls(Found(j), Contents(j.queue))
  {
    hide Trails, Recalls, Contents, Half, Text;
    CrashRecovers(j.Now(), j.trail, j.diskStart, j.diskId, cs, nd, rs, nr);
  }

  /** A crash after the commit block: the new transaction is recovered completely or not at all. */
  lemma CrashCommitted(j: Journal, c: Content)
    requires j.Sound() && Regular(j) && j.alloc > 0 && j.SolidRevoke(NoBlock)
    requires TxnReads(j.g, CurId(j.Now()), V(j.Now())[..j.alloc], c.copies, c.revokes)
    ensures Recalls(Found(j), Contents(j.queue) + if Reaches(j.Now(), j.trail) then [c] else [])
  {
    hide Trails, Recalls, Contents, TxnReads, Text;
    CommittedRecovers(j.Now(), j.trail, j.diskStart, j.diskId, c);
  }

  /** A crash in any session, at any moment: exactly when only the queued transactions are recovered. */
  lemma CrashReads(j: Journal, cs: seq<Logged>, nd: nat, rs: seq<nat>, nr: nat)
    requires j.Sound() && Partly(j.Now(), cs, nd, rs, nr) && LogOk(Found(j))
    requires j.queue == [] ==> nd + nr <= j.trail.solid && |j.trail.lag| < WORD_LIMIT
    requires var q := Led(j.Now(), j.trail);
      Reaches(j.Now(), j.trail) ==> Fits(Found(j), Total(q) + nd + nr, |q|)
    ensures Fits(Found(j), 0, 0)
    ensures !Reaches(j.Now(), j.trail) ==> NothingToReplay(Found(j))
    ensures var q := Led(j.Now(), j.trail);
      Reaches(j.Now(), j.trail) ==>
        (Says(Found(j), Committed(Found(j)), 0, Contents(q)) <==> !BeginsTxn(Found(j), Total(q) + nd + nr, |q|))
  {
    hide Trails, Contents, Text, Partly, Fits, LogOk, Says, BeginsTxn, Committed, Total, NothingToReplay;
    DiskReads(j.Now(), j.trail, j.diskStart, j.diskId, cs, nd, rs, nr);
  }

  // ----- two sessions -----

  /** The newest queued transaction on the ring. */
  lemma NewestSegment(j: State) returns (seg: seq<Block>)
    requires Ok(j) && j.queue != []
    ensures var t := j.queue[|j.queue| - 1];
      && |seg| == t.alloc <= Length(j.g) && TxnReads(j.g, t.id, seg, t.content.copies, t.content.revokes)
      && forall o :: 0 <= o < |seg| ==>
          At(j.g, t.startBlock, o) < |j.ring| && seg[o] == j.ring[At(j.g, t.startBlock, o)]
  {
    hide Tiles, At, Flat, Total, TxnReads, V, Stale;
    var n := |j.queue| - 1;
    var t := j.queue[n];
    seg := j.segs[n];
    AtAt(j.g, j.from, Length(j.g) - Total(j.queue), 0);
    TilesAt(j.g, j.queue, j.start, j.transId, n);
    var run := Contents(j.queue);
    assert TxnReads(j.g, Id(j.transId, 0 + n), j.segs[n], run[n].copies, run[n].revokes);
    forall o | 0 <= o < |seg| ensures At(j.g, t.startBlock, o) < |j.ring| &&
        seg[o] == j.ring[At(j.g, t.startBlock, o)] {
      SegmentBlock(j, n, o);
    }
  }

  lemma {:induction false} FlatAt(segs: seq<seq<Block>>, n: nat, o: nat)
    requires n < |segs| && o < |segs[n]|
    ensures |Flat(segs[..n])| + o < |Flat(segs)| && Flat(segs)[|Flat(segs[..n])| + o] == segs[n][o]
    decreases n
  {
    if n == 0 {
      assert segs[..0] == [];
    } else {
      FlatAt(segs[1..], n - 1, o);
      assert segs[..n][1..] == segs[1..][..n - 1] && segs[..n][0] == segs[0];
    }
  }

  /** Where on the ring block `o` of queued transaction `n` lies. */
  lemma SegmentBlock(j: State, n: nat, o: nat)
    requires Ok(j) && n < |j.queue| && o < j.queue[n].alloc
    ensures |j.segs| == |j.queue| && o < |j.segs[n]|
    ensures var at := At(j.g, j.queue[n].startBlock, o);
      at < |j.ring| && j.segs[n][o] == j.ring[at]
  {
    hide Tiles, At, RunReads, Stale, Total;
    FlatAt(j.segs, n, o);
    FrontLength(j, n);
    hide Flat;
    QueuedBlock(j, n, o);
    var d, p := Length(j.g) - Total(j.queue), Total(j.queue[..n]) + o;
    RingPos(j, d + p);
    assert V(j)[d..][p] == Flat(j.segs)[p] == j.segs[n][o];
    assert V(j)[d + p] == j.ring[At(j.g, j.from, d + p)];
  }

  lemma {:induction false} FrontLength(j: State, n: nat)
    requires SegLengths(j) && n <= |j.queue|
    ensures |Flat(j.segs[..n])| == Total(j.queue[..n])
    decreases n
  {
    if n > 0 {
      FrontLength(j, n - 1);
      assert j.segs[..n] == j.segs[..n - 1] + [j.segs[n - 1]] && j.queue[..n] == j.queue[..n - 1] + [j.queue[n - 1]];
      FlatAppend(j.segs[..n - 1], j.segs[n - 1]);
      TotalAppend(j.queue[..n - 1], j.queue[n - 1]);
    }
  }

  /** A dirty buffer that fits the journal. */
  predicate OneBuf(g: Geometry, x: Buf) {
    x.dirty && |x.data| == g.words && AddressFits(g, x.lba)
  }

  predicate DirtyBufs(g: Geometry, xs: seq<Buf>) {
    forall i :: 0 <= i < |xs| ==> OneBuf(g, xs[i])
  }

  function ContentOf(x: Buf): Content {
    Content([Logged(x.lba, x.data)], [])
  }

  lemma {:induction false} DirtyAll(g: Geometry, xs: seq<Buf>)
    requires DirtyBufs(g, xs)
    ensures |DirtyOf(xs)| == |xs| && BufsOk(g, xs)
    decreases |xs|
  {
    if xs != [] {
      DirtyAll(g, xs[1..]);
    }
  }

  lemma {:induction false} NeedInOne(g: Geometry, n: nat, room: nat)
    requires n <= room
    ensures Need(g, n, room) == n
  {
    if n > 0 {
      NeedInOne(g, n - 1, room - 1);
    }
  }

  lemma {:induction false} NeedBehind(g: Geometry, n: nat, room: nat)
    requires n > room
    ensures Need(g, n, room) == room + Need(g, n - room, 0)
    decreases room
  {
    if room > 0 {
      NeedBehind(g, n - 1, room - 1);
    }
  }

  /** Copies that fit into one descriptor block. */
  lemma FewBlocks(g: Geometry, n: nat)
    requires GeometryOk(g) && 0 < n <= Cap(g)
    ensures TxnBlocks(g, n, 0) == n + 2
  {
    NeedInOne(g, n, Cap(g));
  }

  /** More of them need a second descriptor block. */
  lemma ManyBlocks(g: Geometry, n: nat)
    requires GeometryOk(g) && n > Cap(g)
    ensures Need(g, n, 0) >= Cap(g) + 3
  {
    NeedBehind(g, n, Cap(g));
    var m := n - Cap(g);
    assert Need(g, m, 0) == 1 + Need(g, m, Cap(g)) && Need(g, m, Cap(g)) > 0;
  }

  /** Commit a transaction whose tags fit into one descriptor block. */
  method CommitFew(j: Journal, xs: seq<Buf>)
    requires j.Quiet() && DirtyBufs(j.g, xs) && 0 < |xs| <= Cap(j.g) && Length(j.g) > |xs| + 2
    modifies j
    ensures j.Quiet() && j.queue != [] && j.allocTransId == Id(old(j.allocTransId), 1)
    ensures var t := j.queue[|j.queue| - 1];
      && t.id == old(j.allocTransId) && t.startBlock == old(j.last) && t.alloc == |xs| + 2 &&
          t.content == Content(DirtyOf(xs), [])
    ensures |j.queue| <= old(|j.queue|) + 1
    ensures j.last == At(j.g, old(j.last), |xs| + 2) && Untouched(j.g, old(j.ring), j.ring, old(j.last), |xs| + 2)
  {
    hide Ledger, Untouched, Ok, At, Told, Traced, Atomic, Trails, DirtyOf, DirtyBufs, BufsOk, Cap, TxnBlocks;
    LastIs(j.Now());
    DirtyAll(j.g, xs);
    FewBlocks(j.g, |xs|);
    j.Commit(xs, [], []);
  }

  lemma DirtyOne(x: Buf)
    requires x.dirty
    ensures DirtyOf([x]) == [Logged(x.lba, x.data)]
  {
    assert [x][1..] == [];
  }

  /** Commit a transaction of one block. */
  method CommitOne(j: Journal, x: Buf)
    requires j.Quiet() && OneBuf(j.g, x) && Length(j.g) > 3
    modifies j
    ensures j.Quiet() && j.queue != [] && j.allocTransId == Id(old(j.allocTransId), 1)
    ensures var t := j.queue[|j.queue| - 1];
      && t.id == old(j.allocTransId) && t.startBlock == old(j.last) && t.alloc == 3 && t.content == ContentOf(x)
    ensures |j.queue| <= old(|j.queue|) + 1
    ensures j.last == At(j.g, old(j.last), 3) && Untouched(j.g, old(j.ring), j.ring, old(j.last), 3)
  {
    hide Ledger, Untouched, Ok, At, Told, Trails, Leads;
    LastIs(j.Now());
    DirtyOne(x);
    CapSome(j.g);
    CommitFew(j, [x]);
  }

  /**
   * Two transactions are committed and the journal is stopped; the next session, which counts its ids
   * from the same number, commits one.  Then the log says this one and, once more, the second one of
   * the earlier session.
   */
  method TwoSessions(g: Geometry, uuid: seq<Word>, ring: seq<Block>, a: Buf, b: Buf, c: Buf) returns (second: Journal)
    requires GeometryOk(g) && RingOk(g, ring) && |uuid| == 4 && Length(g) > 6
    requires OneBuf(g, a) && OneBuf(g, b) && OneBuf(g, c)
    requires forall i :: g.first <= i < g.maxlen ==> ring[i][0] != MAGIC
    ensures second.Quiet() && second.OnDisk() && |second.queue| == 1 && second.queue[0].content == ContentOf(c)
    ensures LogOk(Found(second)) && Fits(Found(second), 0, 0)
    ensures Says(Found(second), Committed(Found(second)), 0, [ContentOf(c), ContentOf(b)])
  {
    hide Ledger, Untouched, Ok, At, Total, Later, TxnReads, Says, Fits, Committed, Trails, Told, Stale;
    var first := new Journal(g, uuid, ring, 0);
    CommitOne(first, a);
    ghost var ring1 := first.ring;
    CommitOne(first, b);
    ghost var ring2 := first.ring;
    ghost var seg := NewestSegment(first.Now());
    LastIs(first.Now());
    first.Stop();
    second := new Journal(g, uuid, first.ring, first.diskId);
    CommitOne(second, c);
    StillThere(g, ring, ring1, ring2, second.ring, seg);
    SecondLog(second.Now(), seg, ContentOf(b));
    assert [ContentOf(c)] + [ContentOf(b)] == [ContentOf(c), ContentOf(b)];
  }

  /** A block outside the `n` blocks from place `p` on is the same in both rings. */
  lemma StaysAt(g: Geometry, ring: seq<Block>, ring': seq<Block>, p: nat, n: nat, o: nat)
    requires GeometryOk(g) && |ring| == g.maxlen && Untouched(g, ring, ring', At(g, g.first, p), n)
    requires p + n <= Length(g) && p < Length(g) && o < Length(g) && (o < p || p + n <= o)
    ensures |ring'| == |ring| && ring'[g.first + o] == ring[g.first + o]
  {
    var k := if o < p then o + Length(g) - p else o - p;
    assert At(g, At(g, g.first, p), k) == g.first + o;
  }

  lemma Place(g: Geometry, p: nat, o: nat)
    requires GeometryOk(g) && p + o < Length(g)
    ensures At(g, At(g, g.first, p), o) == g.first + p + o && At(g, g.first, p) == g.first + p
  {
  }

  /** The second transaction of the first session is still on the ring, and nothing behind it. */
  lemma StillThere(g: Geometry, ring: seq<Block>, ring1: seq<Block>, ring2: seq<Block>, ring3: seq<Block>,
                   seg: seq<Block>)
    requires GeometryOk(g) && RingOk(g, ring) && Length(g) > 6 && |seg| == 3
    requires Untouched(g, ring, ring1, g.first, 3) && Untouched(g, ring1, ring2, At(g, g.first, 3), 3)
    requires Untouched(g, ring2, ring3, g.first, 3)
    requires forall o :: 0 <= o < |seg| ==>
      At(g, At(g, g.first, 3), o) < |ring2| && seg[o] == ring2[At(g, At(g, g.first, 3), o)]
    ensures |ring3| == |ring| && forall o :: 0 <= o < 3 ==> seg[o] == ring3[g.first + 3 + o]
    ensures ring3[g.first + 6] == ring[g.first + 6]
  {
    hide Untouched, At;
    Place(g, 0, 0);
    StaysAt(g, ring, ring1, 0, 3, 6);
    StaysAt(g, ring1, ring2, 3, 3, 6);
    StaysAt(g, ring2, ring3, 0, 3, 6);
    forall o | 0 <= o < 3 ensures seg[o] == ring3[g.first + 3 + o] {
      Place(g, 3, o);
      StaysAt(g, ring2, ring3, 0, 3, 3 + o);
    }
  }

  lemma SecondLog(j: State, seg: seq<Block>, old_: Content)
    requires Ok(j) && |j.queue| == 1 && j.queue[0].alloc == 3 && j.queue[0].startBlock == j.g.first && j.cur == 0
    requires j.queue[0].id == 1 && Length(j.g) > 6 && |seg| == 3 && |j.ring| == j.g.maxlen
    requires TxnReads(j.g, 2, seg, old_.copies, old_.revokes)
    requires forall o :: 0 <= o < 3 ==> seg[o] == j.ring[j.g.first + 3 + o]
    requires j.ring[j.g.first + 6] != [] && j.ring[j.g.first + 6][0] != MAGIC
    ensures LogOk(LogOf(j)) && Fits(LogOf(j), 0, 0)
    ensures Says(LogOf(j), Committed(LogOf(j)), 0, [j.queue[0].content] + [old_])
  {
    hide TxnReads, Says, Fits, Committed, RunReads, Stale;
    var log, run := LogOf(j), Contents(j.queue);
    HoldsQueue(j);
    RunOf(j);
    assert run == [j.queue[0].content];
    assert j.queue[1..] == [];
    assert j.start == j.g.first && j.transId == 1;
    hide Ok;
    var all := Flat(j.segs) + seg;
    forall i | 0 <= i < |all| ensures BlockAt(log, 0 + i) == all[i] {
      if i < 3 {
        assert BlockAt(log, 0 + i) == Flat(j.segs)[i];
      } else {
        assert all[i] == seg[i - 3];
      }
    }
    LeftoverReplayed(log, j.segs, run, seg, old_);
  }

  /** The smallest journal, never used before. */
  method StaleTransactionReplayed() returns (second: Journal, b: Buf, c: Buf)
    ensures LogOk(Found(second)) && Fits(Found(second), 0, 0) && b.lba != c.lba
    ensures |second.queue| == 1 && second.queue[0].content == ContentOf(c)
    ensures Says(Found(second), Committed(Found(second)), 0, [ContentOf(c), ContentOf(b)])
  {
    var g, blank := Geometry(256, 1, 8, false), seq(256, i => 0);
    b, c := Buf(20, true, blank), Buf(30, true, blank);
    second := TwoSessions(g, [0, 0, 0, 0], seq(8, i => blank), Buf(10, true, blank), b, c);
  }

  // ----- a torn commit -----

  /** Write the first copies of a long transaction, up to their descriptor block. */
  method FirstDescriptor(j: Journal, xs: seq<Buf>)
    requires j.Quiet() && DirtyBufs(j.g, xs) && |xs| > Cap(j.g) && Total(j.queue) + Need(j.g, |xs|, 0) < Length(j.g)
    modifies j
    ensures j.Valid() && CurId(j.Now()) == old(CurId(j.Now())) && j.alloc == Cap(j.g) + 1 && j.from == old(j.from)
    ensures Writing(j.Now(), Closed, DirtyOf(xs[..Cap(j.g)]), j.alloc, |DirtyOf(xs[..Cap(j.g)])|, [])
    ensures j.queue == old(j.queue) && j.diskStart == old(j.diskStart) && j.diskId == old(j.diskId)
    ensures Beyond(old(j.Now()), j.Now())
  {
    hide Ledger, Ok, V, CurId, Told, Leads, Writing, Trails, NoLast, Need, Room, Cap, Total, Beyond, Later, DirtyOf;
    var g, n := j.g, Cap(j.g);
    DirtyAll(g, xs);
    WritingStart(j.Now());
    StartSolid(j.Now(), j.trail, j.diskStart, j.diskId);
    BeyondSelf(j.Now());
    NoneLast();
    NoneDirty(xs);
    LastIs(j.Now());
    CapSome(g);
    ManyBlocks(g, |xs|);
    ghost var cs: seq<Logged>, closed: nat, m: nat, tags: seq<Tag> := [], 0, 0, [];
    var c, i := Closed, 0;
    ClosedFacts(j.Now(), c, cs, closed, m, tags);
    while i < n
      invariant i <= n && cs == DirtyOf(xs[..i]) && |cs| == i && closed == 0 && (c.Closed? <==> i == 0)
      invariant j.Valid() && j.Begun(j.from) && j.allocTransId == CurId(j.Now()) == old(CurId(j.Now()))
      invariant j.from == old(j.from) && Writing(j.Now(), c, cs, closed, m, tags) && NoLast(tags) && j.Solid(c, closed)
      invariant i > 0 ==> Room(g, c) + i == n && j.alloc == i + 1 && tags != []
      invariant i == 0 ==> j.alloc == 0
      invariant j.alloc + Need(g, |xs| - i, Room(g, c)) == Need(g, |xs|, 0)
      invariant j.queue == old(j.queue) && j.diskStart == old(j.diskStart) && j.diskId == old(j.diskId)
      invariant Beyond(old(j.Now()), j.Now())
    {
      ghost var k := j.Now();
      DirtySnoc(xs, i);
      c, closed, m, tags := j.LogBlock(c, xs[i], false, cs, closed, m, tags, |xs| - i);
      cs := cs + [Logged(xs[i].lba, xs[i].data)];
      BeyondTrans(old(j.Now()), k, j.Now());
      i := i + 1;
    }
    ghost var k := j.Now();
    RoomSpent(j.Now(), c, cs, closed, m, tags);
    j.CloseBlock(c, cs, closed, m, tags, |xs| - n);
    BeyondTrans(old(j.Now()), k, j.Now());
  }

  lemma RoomSpent(j: State, c: Cursor, cs: seq<Logged>, closed: nat, n: nat, tags: seq<Tag>)
    requires Writing(j, c, cs, closed, n, tags) && c.Open? && Room(j.g, c) == 0
    ensures c.p + TagWords(j.g) > j.g.words
  {
  }

  lemma TwoFit(g: Geometry)
    requires GeometryOk(g)
    ensures Cap(g) > 2
  {
  }

  lemma EndsWithCommit(g: Geometry, id: Word, seg: seq<Block>, c: Content)
    requires TxnReads(g, id, seg, c.copies, c.revokes)
    ensures seg != [] && Header(seg[|seg| - 1], COMMIT, id)
  {
    hide ReadsAs, RevokesAs;
  }

  /** What the first session has left in three places behind the transaction of the second one. */
  lemma LeftBlocks(g: Geometry, ring: seq<Block>, ring1: seq<Block>, ring2: seq<Block>, ring3: seq<Block>,
                   segA: seq<Block>, segB: seq<Block>, a: Content, b: Content)
    requires GeometryOk(g) && RingOk(g, ring) && Length(g) > Cap(g) + 5 && |segA| == 4 && |segB| == Cap(g) + 1
    requires TxnReads(g, 1, segA, a.copies, a.revokes) && TxnReads(g, 2, segB, b.copies, b.revokes)
    requires Untouched(g, ring, ring1, g.first, 4) && Untouched(g, ring1, ring2, At(g, g.first, 4), Cap(g) + 1)
    requires Untouched(g, ring2, ring3, g.first, 3)
    requires forall o :: 0 <= o < |segA| ==> At(g, g.first, o) < |ring1| && segA[o] == ring1[At(g, g.first, o)]
    requires forall o :: 0 <= o < |segB| ==>
      At(g, At(g, g.first, 4), o) < |ring2| && segB[o] == ring2[At(g, At(g, g.first, 4), o)]
    ensures |ring3| == |ring| && Header(ring3[g.first + 3], COMMIT, 1)
    ensures Header(ring3[g.first + Cap(g) + 4], COMMIT, 2) && ring3[g.first + Cap(g) + 5] == ring[g.first + Cap(g) + 5]
  {
    hide Untouched, At, TxnReads, Header, Cap;
    var n := Cap(g);
    EndsWithCommit(g, 1, segA, a);
    EndsWithCommit(g, 2, segB, b);
    Place(g, 0, 0);
    Place(g, 3, 0);
    Place(g, 4, n);
    StaysAt(g, ring, ring1, 0, 4, n + 5);
    StaysAt(g, ring1, ring2, 4, n + 1, 3);
    StaysAt(g, ring1, ring2, 4, n + 1, n + 5);
    StaysAt(g, ring2, ring3, 0, 3, 3);
    StaysAt(g, ring2, ring3, 0, 3, n + 4);
    StaysAt(g, ring2, ring3, 0, 3, n + 5);
  }

  /** A transaction of one block with id 1 at the beginning of the ring is all that is queued. */
  ghost predicate OneAtFirst(j: State) {
    && Ok(j) && |j.queue| == 1
    && j.queue[0].startBlock == j.g.first && j.queue[0].alloc == 3 && j.queue[0].id == 1
  }

  lemma OneQueued(j: State)
    requires OneAtFirst(j)
    ensures GeometryOk(j.g) && RingOk(j.g, j.ring) && Length(j.g) >= 3 && Total(j.queue) == 3
    ensures j.start == j.g.first && j.transId == 1 && CurId(j) == 2 && j.from == At(j.g, j.g.first, 3)
    ensures Contents(j.queue) == [j.queue[0].content] && LogOk(LogOf(j))
    ensures forall o :: 0 <= o < Length(j.g) ==> BlockAt(LogOf(j), o) == j.ring[j.g.first + o]
  {
    hide Text;
    assert j.queue[1..] == [] && Total(j.queue) == 3;
    assert j.start == At(j.g, j.from, Length(j.g) - 3) == j.g.first;
    AtAt(j.g, j.from, Length(j.g) - 3, 3);
  }

  lemma BehindOne(j: State, o: nat)
    requires OneAtFirst(j) && o < Length(j.g) - 3
    ensures |V(j)| == Length(j.g) && V(j)[o] == j.ring[j.g.first + 3 + o]
  {
    OneQueued(j);
    Place(j.g, 3, o);
    hide Text, Tiles;
    assert V(j)[o] == j.ring[At(j.g, j.from, o)];
  }

  /** No record of transaction `k` at offset `o`. */
  lemma NotExpected(log: Log, o: nat, k: nat)
    requires LogOk(log) && o < Length(log.g) && !Expected(log, BlockAt(log, o), k)
    ensures Fits(log, o, k) && !BeginsTxn(log, o, k)
  {
  }

  lemma QuietBefore(j: State)
    requires OneAtFirst(j) && j.cur == 0 && Length(j.g) > 3 && Header(j.ring[j.g.first + 3], COMMIT, 1)
    ensures LogOk(LogOf(j)) && Fits(LogOf(j), 0, 0)
    ensures Says(LogOf(j), Committed(LogOf(j)), 0, [j.queue[0].content])
  {
    hide Ok, Says, Fits, Committed, LogOk, BlockAt, BeginsTxn, Total, Contents, V, CurId;
    OneQueued(j);
    NotExpected(LogOf(j), 3, 1);
    NothingPartly(j);
    QueueReads(j, [], 0, [], 0);
  }

  lemma NothingPartly(j: State)
    requires Ok(j)
    ensures Partly(j, [], 0, [], 0)
  {
    hide Text;
    assert V(j)[..0] == [] && V(j)[0..0] == [];
  }

  lemma HalfCounts(j: State, cs: seq<Logged>)
    requires OneAtFirst(j) && Writing(j, Closed, cs, j.cur, |cs|, []) && Length(j.g) > j.cur + 4
    requires Header(j.ring[j.g.first + 3 + j.cur], COMMIT, 2)
    requires j.ring[j.g.first + 4 + j.cur] != [] && j.ring[j.g.first + 4 + j.cur][0] != MAGIC
    ensures LogOk(LogOf(j)) && Fits(LogOf(j), 0, 0)
    ensures Says(LogOf(j), Committed(LogOf(j)), 0, [j.queue[0].content] + [Content(cs, [])])
  {
    hide Ok, Says, Fits, Committed, LogOk, BlockAt, BeginsTxn, Total, Contents, CurId, ReadsAs, V, Partly;
    OneQueued(j);
    BehindOne(j, j.cur);
    NotExpected(LogOf(j), 4 + j.cur, 2);
    ClosedPartly(j, cs);
    PartReplayed(j, cs, j.cur, [], 0);
  }

  lemma ClosedPartly(j: State, cs: seq<Logged>)
    requires Writing(j, Closed, cs, j.cur, |cs|, [])
    ensures Partly(j, cs, j.cur, [], 0)
  {
    hide Text, ReadsAs;
    assert cs[..|cs|] == cs && V(j)[j.cur..j.cur + 0] == [];
  }

  /**
   * The first session commits a transaction of two blocks and one that fills a descriptor block but for
   * one tag; the next session commits one of a single block.  The commit blocks of the first session are
   * still there, one just behind the new transaction and one further on.
   */
  method TwoCommitsThenOne(g: Geometry, uuid: seq<Word>, ring: seq<Block>, a: seq<Buf>, b: seq<Buf>, c: Buf)
    returns (second: Journal)
    requires GeometryOk(g) && RingOk(g, ring) && |uuid| == 4 && Length(g) > Cap(g) + 5
    requires DirtyBufs(g, a) && DirtyBufs(g, b) && OneBuf(g, c) && |a| == 2 && |b| == Cap(g) - 1
    ensures fresh(second) && second.g == g && second.Quiet() && OneAtFirst(second.Now())
    ensures second.queue[0].content == ContentOf(c)
    ensures |second.ring| == |ring| && Header(second.ring[g.first + 3], COMMIT, 1)
    ensures Header(second.ring[g.first + Cap(g) + 4], COMMIT, 2)
    ensures second.ring[g.first + Cap(g) + 5] == ring[g.first + Cap(g) + 5]
  {
    hide Ledger, Untouched, Ok, At, Total, Later, TxnReads, Trails, Told, Stale, Cap, DirtyOf, DirtyBufs, Header;
    TwoFit(g);
    var old_ := new Journal(g, uuid, ring, 0);
    CommitFew(old_, a);
    ghost var ring1 := old_.ring;
    ghost var segA := NewestSegment(old_.Now());
    CommitFew(old_, b);
    ghost var ring2 := old_.ring;
    ghost var segB := NewestSegment(old_.Now());
    LastIs(old_.Now());
    old_.Stop();
    second := new Journal(g, uuid, old_.ring, old_.diskId);
    CommitOne(second, c);
    LeftBlocks(g, ring, ring1, ring2, second.ring, segA, segB, Content(DirtyOf(a), []), Content(DirtyOf(b), []));
  }

  /**
   * After that recovery is right.  Then a transaction is begun that needs two descriptor blocks, and there
   * is a crash when it is on the ring up to the first of these: the old commit block is just behind it,
   * and half of the new transaction counts as committed.
   */
  method TornCommit(g: Geometry, uuid: seq<Word>, ring: seq<Block>, a: seq<Buf>, b: seq<Buf>, c: Buf, xs: seq<Buf>)
    returns (second: Journal, ghost before: Disk)
    requires GeometryOk(g) && RingOk(g, ring) && |uuid| == 4 && Length(g) > 3 + Need(g, |xs|, 0)
    requires DirtyBufs(g, a) && DirtyBufs(g, b) && OneBuf(g, c) && DirtyBufs(g, xs)
    requires |a| == 2 && |b| == Cap(g) - 1 && |xs| > Cap(g)
    requires forall i :: g.first <= i < g.maxlen ==> ring[i][0] != MAGIC
    ensures second.g == g && LogOk(LogOn(g, before)) && Fits(LogOn(g, before), 0, 0)
    ensures Says(LogOn(g, before), Committed(LogOn(g, before)), 0, [ContentOf(c)])
    ensures before.start == second.diskStart && before.id == second.diskId
    ensures Untouched(g, before.ring, second.ring, At(g, g.first, 3), Cap(g) + 1)
    ensures LogOk(Found(second)) && Fits(Found(second), 0, 0)
    ensures Says(Found(second), Committed(Found(second)), 0, [ContentOf(c), Content(DirtyOf(xs[..Cap(g)]), [])])
  {
    hide Ledger, Untouched, Ok, At, Total, Later, Says, Fits, Committed, Trails, Told, Cap, Need, DirtyOf, DirtyBufs,
      Writing, Beyond, LogOk, Header;
    ManyBlocks(g, |xs|);
    second := TwoCommitsThenOne(g, uuid, ring, a, b, c);
    ghost var j, n := second.Now(), Cap(g);
    before := Disk(second.ring, second.diskStart, second.diskId);
    OneQueued(j);
    QuietBefore(j);
    FirstDescriptor(second, xs);
    BeyondRing(j, second.Now());
    StaysAt(g, j.ring, second.ring, 3, n + 1, n + 4);
    StaysAt(g, j.ring, second.ring, 3, n + 1, n + 5);
    OneQueued(second.Now());
    HalfCounts(second.Now(), DirtyOf(xs[..n]));
    assert [ContentOf(c)] + [Content(DirtyOf(xs[..n]), [])] == [ContentOf(c), Content(DirtyOf(xs[..n]), [])];
  }

  /** A journal of 256 blocks, never used before, and a transaction of 125 blocks of which 124 come back. */
  method HalfTransactionReplayed() returns (second: Journal, xs: seq<Buf>)
    ensures second.g == Geometry(256, 1, 257, false) && |xs| == 125 == |DirtyOf(xs)|
    ensures LogOk(Found(second)) && Fits(Found(second), 0, 0)
    ensures exists c: Content :: Says(Found(second), Committed(Found(second)), 0, [c, Content(DirtyOf(xs[..124]), [])])
  {
    hide Says, Fits, Committed, LogOk, DirtyOf, Need;
    var g, blank := Geometry(256, 1, 257, false), seq(256, i => 0);
    var a := seq(2, i requires 0 <= i < 2 => Buf(10 + i, true, blank));
    var b := seq(123, i requires 0 <= i < 123 => Buf(20 + i, true, blank));
    xs := seq(125, i requires 0 <= i < 125 => Buf(200 + i, true, blank));
    DirtyAll(g, xs);
    NeedOpen(g, 125);
    NeedBehind(g, 125, 124);
    NeedOpen(g, 1);
    NeedInOne(g, 1, 124);
    ghost var before;
    second, before := TornCommit(g, [0, 0, 0, 0], seq(257, i => blank), a, b, Buf(5, true, blank), xs);
  }
}
