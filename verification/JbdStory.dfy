/** The journal on disk after every single write while one transaction is being committed. */
module JbdStory {
  import opened JbdFormat
  import opened JbdLog
  import opened JbdRecover
  import opened JbdText
  import opened JbdHistory
  import opened JbdRing
  import opened JbdState
  import opened JbdTrail
  import opened JbdWrite
  import opened JbdSession

  /** The log area and the superblock on disk. */
  datatype Disk = Disk(ring: seq<Block>, start: nat, id: Word)

  /**
   * Where the transaction being committed began: what the queued transactions had logged, and the
   * journal on disk.  `followed` says that recovery is known to find just this then.
   */
  datatype Origin = Origin(followed: bool, run: seq<Content>, disk: Disk)

  /** One block of the log area was written, or the superblock. */
  ghost predicate OneWrite(x: Disk, y: Disk) {
    || x.ring == y.ring
    || (&& x.start == y.start && x.id == y.id && |x.ring| == |y.ring|
        && forall i, k :: 0 <= i < k < |x.ring| ==> x.ring[i] == y.ring[i] || x.ring[k] == y.ring[k])
  }

  /** The disks lead from the first to the present one, one write apart. */
  ghost predicate Traced(first: Disk, disks: seq<Disk>, now: Disk) {
    && disks != [] && disks[0] == first && disks[|disks| - 1] == now
    && forall i :: 0 < i < |disks| ==> OneWrite(disks[i - 1], disks[i])
  }

  ghost function LogOn(g: Geometry, x: Disk): Log {
    Log(g, x.ring, x.start, x.id)
  }

  /**
   * Recovery puts back what the run logged, but for some of the oldest transactions.  At least the
   * newest `keep` ones are among those put back.
   */
  ghost predicate OldBack(g: Geometry, x: Disk, run: seq<Content>, keep: nat) {
    exists m :: 0 <= m <= |run| - keep && Recalls(LogOn(g, x), run[m..])
  }

  /** The same with a new transaction behind it. */
  ghost predicate NewBack(g: Geometry, x: Disk, run: seq<Content>, keep: nat, c: Content) {
    exists m :: 0 <= m <= |run| - keep && Recalls(LogOn(g, x), run[m..] + [c])
  }

  /** Up to write `p` recovery finds nothing of the new transaction, and from then on all of it. */
  ghost predicate Atomic(g: Geometry, disks: seq<Disk>, run: seq<Content>, keep: nat, c: Content, p: nat) {
    && p <= |disks|
    && (forall i :: 0 <= i < p ==> OldBack(g, disks[i], run, keep))
    && forall i :: p <= i < |disks| ==> NewBack(g, disks[i], run, keep, c)
  }

  /** Of the transactions that were queued when the present one began, how many still are when it is queued too. */
  function Kept(queue: seq<Trans>): nat {
    if queue == [] then 0 else |queue| - 1
  }

  ghost predicate Suffix(rest: seq<Content>, run: seq<Content>) {
    |rest| <= |run| && rest == run[|run| - |rest|..]
  }

  /** How far the transaction being written has come: in parts, or complete with its commit block. */
  ghost predicate Stands(j: State, d: Trail, whole: Option<Content>)
    requires Shape(j)
  {
    match whole
    case None => exists cs, nd: nat, rs, nr: nat :: Half(j, cs, nd, rs, nr) && (j.queue == [] ==> nd + nr <= d.solid)
    case Some(c) =>
      && j.cur > 0 && TxnReads(j.g, CurId(j), V(j)[..j.cur], c.copies, c.revokes)
      && (j.queue == [] ==> d.solid == j.cur && d.hole == j.g.maxlen)
  }

  /** What recovery finds in each of the disks. */
  ghost predicate Recalled(j: State, d: Trail, run: seq<Content>, disks: seq<Disk>, whole: Option<Content>)
    requires j.g.first <= j.g.maxlen
  {
    match whole
    case None => forall i :: 0 <= i < |disks| ==> OldBack(j.g, disks[i], run, |j.queue|)
    case Some(c) => exists p: nat :: Atomic(j.g, disks, run, |j.queue|, c, p) && (p == |disks| ==> !Reaches(j, d))
  }

  ghost predicate Followed(j: State, d: Trail, s: Origin) {
    j.clean && Suffix(Contents(j.queue), s.run) && (j.queue == [] ==> |d.lag| < WORD_LIMIT)
  }

  ghost predicate Told(j: State, d: Trail, at: nat, id: Word, s: Origin, disks: seq<Disk>, whole: Option<Content>)
    requires Shape(j)
  {
    && Traced(s.disk, disks, Disk(j.ring, at, id))
    && (s.followed ==> Followed(j, d, s) && Stands(j, d, whole) && Recalled(j, d, s.run, disks, whole))
  }

  /** What the superblock on disk leads to. */
  ghost predicate Leads(j: State, d: Trail, at: nat, id: Word) {
    if j.queue == [] then Trails(j, d, at, id) else at == j.start && id == j.transId
  }

  ghost function Rest(j: State, d: Trail, whole: Option<Content>): seq<Content>
    requires j.g.first <= j.g.maxlen
  {
    Contents(j.queue) + if whole.Some? && Reaches(j, d) then [whole.value] else []
  }

  /** A crash at any stage. */
  lemma StandsRecalls(j: State, d: Trail, at: nat, id: Word, whole: Option<Content>)
    requires Ok(j) && j.clean && Stands(j, d, whole) && OnRecord(j, d, at, id)
    ensures Recalls(DiskLog(j, at, id), Rest(j, d, whole))
  {
    hide Text, Tiles, Half, Recalls, Contents, TxnReads, Trails, V, Intact;
    match whole
    case None =>
      var cs, nd: nat, rs, nr: nat :| Half(j, cs, nd, rs, nr) && (j.queue == [] ==> nd + nr <= d.solid);
      CrashRecovers(j, d, at, id, cs, nd, rs, nr);
      assert Contents(j.queue) + [] == Contents(j.queue);
    case Some(c) =>
      CommittedRecovers(j, d, at, id, c);
  }

  /** The same in terms of what was queued at the beginning. */
  lemma NowBack(j: State, d: Trail, at: nat, id: Word, s: Origin, whole: Option<Content>)
    requires Ok(j) && Followed(j, d, s) && Stands(j, d, whole) && Leads(j, d, at, id)
    ensures whole.None? || !Reaches(j, d) ==> OldBack(j.g, Disk(j.ring, at, id), s.run, |j.queue|)
    ensures whole.Some? && Reaches(j, d) ==> NewBack(j.g, Disk(j.ring, at, id), s.run, |j.queue|, whole.value)
  {
    assert |Contents(j.queue)| == |j.queue|;
    hide Text, Tiles, Stands, Recalls, Contents, Trails, Intact;
    StandsRecalls(j, d, at, id, whole);
    var m := |s.run| - |Contents(j.queue)|;
    assert LogOn(j.g, Disk(j.ring, at, id)) == DiskLog(j, at, id);
    if whole.None? || !Reaches(j, d) {
      assert Contents(j.queue) + [] == s.run[m..];
    } else {
      assert Rest(j, d, whole) == s.run[m..] + [whole.value];
    }
  }

  // ----- the transaction begins -----

  ghost function Outset(j: State, d: Trail, at: nat, id: Word): Origin {
    Origin(j.clean && (j.queue == [] ==> |d.lag| < WORD_LIMIT), Contents(j.queue), Disk(j.ring, at, id))
  }

  lemma ToldBegins(j: State, d: Trail, at: nat, id: Word)
    requires Ok(j) && j.cur == 0 && Leads(j, d, at, id)
    ensures Told(j, d, at, id, Outset(j, d, at, id), [Disk(j.ring, at, id)], None)
  {
    hide Text, Tiles, Half, Trails, Contents, OldBack;
    var s := Outset(j, d, at, id);
    if s.followed {
      HalfIdle(j);
      assert Stands(j, d, None);
      NowBack(j, d, at, id, s, None);
    }
  }

  lemma StandsHalf(j: State, d: Trail, cs: seq<Logged>, nd: nat, rs: seq<nat>, nr: nat)
    requires Shape(j) && Half(j, cs, nd, rs, nr) && (j.queue == [] ==> nd + nr <= d.solid)
    ensures Stands(j, d, None)
  {
  }

  // ----- nothing is written -----

  /** Nothing but the number of blocks given out and the queue may differ. */
  ghost predicate SameBlocks(j: State, j': State) {
    && Shape(j) && Shape(j') && j'.g == j.g && j'.from == j.from && j'.clean == j.clean && j'.ring == j.ring
    && CurId(j') == CurId(j)
  }

  lemma SameShape(j: State, j': State)
    requires Ok(j) && Ok(j') && j'.g == j.g && j'.from == j.from && j'.clean == j.clean && j'.ring == j.ring
    requires CurId(j') == CurId(j)
    ensures SameBlocks(j, j')
  {
  }

  lemma StandsSame(j: State, j': State, d: Trail, d': Trail, whole: Option<Content>)
    requires SameBlocks(j, j') && Stands(j, d, whole) && j'.cur >= j.cur && (whole.Some? ==> j'.cur == j.cur)
    requires j'.queue == [] ==> (j.queue == [] && d' == d) || d' == NoTrail(j')
    ensures Stands(j', d', whole)
  {
    hide Tiles, ReadsAs, RevokesAs, TxnReads;
    if whole.None? {
      var cs, nd: nat, rs, nr: nat :| Half(j, cs, nd, rs, nr) && (j.queue == [] ==> nd + nr <= d.solid);
      assert V(j') == V(j);
      assert Half(j', cs, nd, rs, nr);
    }
  }

  lemma ToldSame(j: State, j': State, d: Trail, at: nat, id: Word, s: Origin, disks: seq<Disk>, whole: Option<Content>)
    requires SameBlocks(j, j') && Told(j, d, at, id, s, disks, whole)
    requires j'.cur >= j.cur && (whole.Some? ==> j'.cur == j.cur)
    requires Contents(j'.queue) == Contents(j.queue)
    ensures Told(j', d, at, id, s, disks, whole)
  {
    hide Shape, Traced, Stands, Atomic, OldBack, V, CurId;
    assert |Contents(j'.queue)| == |j'.queue| && |Contents(j.queue)| == |j.queue|;
    if s.followed {
      StandsSame(j, j', d, d, whole);
    }
  }

  // ----- the superblock is written -----

  lemma TracedMore(first: Disk, disks: seq<Disk>, x: Disk, y: Disk)
    requires Traced(first, disks, x) && OneWrite(x, y)
    ensures Traced(first, disks + [y], y)
  {
    hide OneWrite;
  }

  lemma AtomicMore(g: Geometry, disks: seq<Disk>, run: seq<Content>, keep: nat, c: Content, p: nat,
                   x: Disk)
    requires Atomic(g, disks, run, keep, c, p) && NewBack(g, x, run, keep, c)
    ensures Atomic(g, disks + [x], run, keep, c, p)
  {
    hide OldBack, NewBack;
  }

  lemma BackLess(g: Geometry, x: Disk, run: seq<Content>, keep: nat, keep': nat)
    requires keep' <= keep
    ensures OldBack(g, x, run, keep) ==> OldBack(g, x, run, keep')
    ensures forall c :: NewBack(g, x, run, keep, c) ==> NewBack(g, x, run, keep', c)
  {
  }

  lemma AtomicLess(g: Geometry, disks: seq<Disk>, run: seq<Content>, keep: nat, keep': nat, c: Content, p: nat)
    requires Atomic(g, disks, run, keep, c, p) && keep' <= keep
    ensures Atomic(g, disks, run, keep', c, p)
  {
    hide OldBack, NewBack;
    forall i | 0 <= i < |disks|
      ensures i < p ==> OldBack(g, disks[i], run, keep')
      ensures p <= i ==> NewBack(g, disks[i], run, keep', c)
    {
      BackLess(g, disks[i], run, keep, keep');
    }
  }

  lemma SuffixTrans(a: seq<Content>, b: seq<Content>, run: seq<Content>)
    requires Suffix(a, b) && Suffix(b, run)
    ensures Suffix(a, run)
  {
  }

  lemma SuffixShort(j: State, j': State)
    requires Suffix(Contents(j.queue), Contents(j'.queue))
    ensures |j.queue| <= |j'.queue|
  {
    assert |Contents(j.queue)| == |j.queue| && |Contents(j'.queue)| == |j'.queue|;
  }

  /** Some of the oldest transactions have left, and the superblock says so. */
  lemma ToldDrop(j: State, j': State, d: Trail, at: nat, id: Word, s: Origin, disks: seq<Disk>,
                 whole: Option<Content>, d': Trail)
    requires Ok(j) && Ok(j') && SameBlocks(j, j') && j'.cur == j.cur && Told(j, d, at, id, s, disks, whole) &&
      j.queue != []
    requires Suffix(Contents(j'.queue), Contents(j.queue)) && d' == if j'.queue == [] then NoTrail(j') else d
    ensures Told(j', d', j'.start, j'.transId, s, disks + [Disk(j'.ring, j'.start, j'.transId)], whole)
    ensures Leads(j', d', j'.start, j'.transId)
  {
    hide Text, Traced, Stands, Atomic, OldBack, NewBack, V, CurId, Trails, Tiles, Total;
    if j'.queue == [] {
      TrailNow(j');
    }
    var x := Disk(j'.ring, j'.start, j'.transId);
    TracedMore(s.disk, disks, Disk(j.ring, at, id), x);
    if s.followed {
      SuffixTrans(Contents(j'.queue), Contents(j.queue), s.run);
      StandsSame(j, j', d, d', whole);
      NowBack(j', d', x.start, x.id, s, whole);
      SuffixShort(j', j);
      forall i | 0 <= i < |disks| ensures OldBack(j.g, disks[i], s.run, |j.queue|) ==>
          OldBack(j.g, disks[i], s.run, |j'.queue|) {
        BackLess(j.g, disks[i], s.run, |j.queue|, |j'.queue|);
      }
      if whole.Some? {
        NowIntact(j');
        var p: nat :| Atomic(j.g, disks, s.run, |j.queue|, whole.value, p) && (p == |disks| ==> !Reaches(j, d));
        AtomicLess(j.g, disks, s.run, |j.queue|, |j'.queue|, whole.value, p);
        AtomicMore(j.g, disks, s.run, |j'.queue|, whole.value, p, x);
        assert p < |disks| by {
          AtomicEnd(j.g, disks, s.run, |j.queue|, whole.value, p);
        }
      }
    }
  }

  lemma AtomicEnd(g: Geometry, disks: seq<Disk>, run: seq<Content>, keep: nat, c: Content, p: nat)
    requires Atomic(g, disks, run, keep, c, p)
    ensures p <= |disks|
  {
  }

  lemma NowIntact(j: State)
    requires Shape(j)
    ensures Intact(j, NoTrail(j))
  {
  }

  // ----- a block of the log area is written -----

  /** A write has been recorded whose effect on recovery is still to be shown. */
  ghost predicate Awaits(j: State, d: Trail, at: nat, id: Word, s: Origin, disks: seq<Disk>) {
    && Traced(s.disk, disks, Disk(j.ring, at, id))
    && (s.followed ==>
          Followed(j, d, s) && forall i :: 0 <= i < |disks| - 1 ==> OldBack(j.g, disks[i], s.run, |j.queue|))
  }

  lemma ToldPut(j: State, d: Trail, at: nat, id: Word, s: Origin, disks: seq<Disk>, o: nat, b: Block, d': Trail)
    requires Ok(j) && Told(j, d, at, id, s, disks, None) && At(j.g, j.from, o) < |j.ring| && d'.lag == d.lag
    ensures Awaits(Put(j, o, b), d', at, id, s, disks + [Disk(Put(j, o, b).ring, at, id)])
  {
    hide Tiles, Traced, Stands, OldBack;
    TracedMore(s.disk, disks, Disk(j.ring, at, id), Disk(Put(j, o, b).ring, at, id));
  }

  lemma Settle(j: State, d: Trail, at: nat, id: Word, s: Origin, disks: seq<Disk>)
    requires Ok(j) && Leads(j, d, at, id) && Awaits(j, d, at, id, s, disks) && (j.clean ==> Stands(j, d, None))
    ensures Told(j, d, at, id, s, disks, None)
  {
    hide Ok, Stands, OldBack, Trails;
    if s.followed {
      NowBack(j, d, at, id, s, None);
    }
  }

  lemma SettleWhole(j: State, d: Trail, at: nat, id: Word, s: Origin, disks: seq<Disk>, c: Content)
    requires Ok(j) && Leads(j, d, at, id) && Awaits(j, d, at, id, s, disks) && Stands(j, d, Some(c))
    ensures Told(j, d, at, id, s, disks, Some(c))
  {
    hide Text, Tiles, Total, V, Stands, OldBack, NewBack, Trails, Intact;
    if s.followed {
      NowBack(j, d, at, id, s, Some(c));
      var p := if Reaches(j, d) then |disks| - 1 else |disks|;
      assert Atomic(j.g, disks, s.run, |j.queue|, c, p);
    }
  }

  // ----- the transaction is complete -----

  /** Between transactions nothing is said about earlier disks. */
  lemma ToldQuiet(j: State, d: Trail, at: nat, id: Word, s: Origin, disks: seq<Disk>)
    requires Ok(j) && !s.followed && Traced(s.disk, disks, Disk(j.ring, at, id))
    ensures Told(j, d, at, id, s, disks, None)
  {
  }

  /** The superblock is written when the transaction is the first one of the queue. */
  lemma ToldJoins(j: State, d: Trail, at: nat, id: Word, s: Origin, disks: seq<Disk>, c: Content)
    requires Ok(j) && Told(j, d, at, id, s, disks, Some(c)) && j.queue == []
    ensures var x := Disk(j.ring, j.start, j.transId);
      && Traced(s.disk, disks + [x], x)
      && (s.followed ==> exists p: nat :: p <= |disks| && Atomic(j.g, disks + [x], s.run, |j.queue|, c, p))
  {
    hide Text, Tiles, Total, V, OldBack, NewBack, Trails, Traced, TxnReads, Atomic;
    var x := Disk(j.ring, j.start, j.transId);
    TracedMore(s.disk, disks, Disk(j.ring, at, id), x);
    if s.followed {
      TrailNow(j);
      NowIntact(j);
      assert Stands(j, NoTrail(j), Some(c));
      NowBack(j, NoTrail(j), j.start, j.transId, s, Some(c));
      var p: nat :| Atomic(j.g, disks, s.run, |j.queue|, c, p) && (p == |disks| ==> !Reaches(j, d));
      AtomicEnd(j.g, disks, s.run, |j.queue|, c, p);
      AtomicMore(j.g, disks, s.run, |j.queue|, c, p, x);
    }
  }
}
