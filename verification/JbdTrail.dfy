/**
 * The journal superblock on disk.  It is not written when a transaction that only revokes blocks
 * finds the checkpoint queue empty, so it may point to transactions the journal has left behind.
 */
module JbdTrail {
  import opened JbdFormat
  import opened JbdLog
  import opened JbdRecover
  import opened JbdText
  import opened JbdHistory
  import opened JbdRing
  import opened JbdState

  /**
   * The transactions from the superblock's block on that have left the queue, with their blocks.
   * `solid` is the part of the transaction being written that may differ from what was there
   * before; `hole` is the place of a descriptor not written yet when that is the superblock's block,
   * and `maxlen` otherwise.
   */
  datatype Trail = Trail(lag: seq<Trans>, segs: seq<seq<Block>>, solid: nat, hole: nat)

  ghost predicate PureRevokes(lag: seq<Trans>) {
    forall i :: 0 <= i < |lag| ==> lag[i].content.copies == []
  }

  /** The state seen from the superblock: the transactions left behind are still the queue. */
  ghost function Back(j: State, d: Trail, at: nat, id: Word): State
    requires j.g.first <= j.g.maxlen
  {
    j.(start := at, transId := id, queue := d.lag, segs := d.segs, cur := d.solid, last := At(j.g, j.from, d.solid))
  }

  ghost predicate Intact(j: State, d: Trail)
    requires j.g.first <= j.g.maxlen
  {
    Total(d.lag) + d.solid <= Length(j.g)
  }

  /** The superblock's block was written again since: it holds data or a record of a later transaction. */
  ghost predicate Spent(j: State, d: Trail, at: nat, id: Word)
    requires at < |j.ring|
  {
    |j.ring[at]| >= 4 && j.ring[at][0] == MAGIC ==> exists a :: 1 <= a <= |d.lag| && j.ring[at][2] == Id(id, a)
  }

  /** The block is no record of this transaction, or one without data blocks. */
  predicate Harmless(g: Geometry, b: Block, id: Word) {
    Marked(b, id) ==> (b[1] == DESCRIPTOR ==> TableOf(g, b) == []) && (b[1] == REVOKE ==> CountOk(b))
  }

  /** The superblock's block is the place of an open descriptor, and data blocks follow it. */
  ghost predicate Broken(j: State, d: Trail, at: nat, id: Word)
    requires RingOk(j.g, j.ring) && GeometryOk(j.g) && j.g.first <= at < j.g.maxlen && j.g.first <= j.from < j.g.maxlen
  {
    && d.hole + 2 <= d.solid <= Length(j.g) && at == At(j.g, j.from, d.hole)
    && Harmless(j.g, j.ring[at], id)
    && j.ring[At(j.g, j.from, d.hole + 1)][0] != MAGIC
  }

  ghost predicate TrailShape(j: State, d: Trail, at: nat, id: Word) {
    && Shape(j) && j.queue == [] && d.solid <= j.cur && PureRevokes(d.lag)
    && Id(id, |d.lag|) == j.transId && j.g.first <= at < j.g.maxlen
    && (d.hole == j.g.maxlen || d.hole + 2 <= d.solid)
  }

  /** What the superblock (`at`, `id`) on disk leads to while the queue is empty. */
  ghost predicate Trails(j: State, d: Trail, at: nat, id: Word) {
    && TrailShape(j, d, at, id)
    && if Intact(j, d) then Ok(Back(j, d, at, id)) else Spent(j, d, at, id) || Broken(j, d, at, id)
  }

  ghost function NoTrail(j: State): Trail {
    Trail([], [], j.cur, j.g.maxlen)
  }

  /** The superblock has just been written. */
  lemma TrailNow(j: State)
    requires Ok(j) && j.queue == []
    ensures Trails(j, NoTrail(j), j.start, j.transId)
  {
    assert j.segs == [];
    assert Back(j, NoTrail(j), j.start, j.transId) == j;
  }

  /** More blocks for the transaction being written. */
  lemma TrailSame(j: State, j': State, d: Trail, at: nat, id: Word)
    requires Trails(j, d, at, id) && Shape(j') && j'.queue == [] && j'.cur >= j.cur
    requires j'.ring == j.ring && j'.g == j.g && j'.from == j.from && j'.transId == j.transId && j'.clean == j.clean
    ensures Trails(j', d, at, id)
  {
    assert Back(j', d, at, id) == Back(j, d, at, id);
  }

  lemma BackGrow(j: State, d: Trail, at: nat, id: Word)
    requires Shape(j) && Ok(Back(j, d, at, id)) && Total(d.lag) + d.solid < Length(j.g)
    ensures Ok(Back(j, d.(solid := d.solid + 1), at, id))
  {
    hide Text, Tiles;
    var k := Back(j, d, at, id);
    GrowKeeps(k);
    AtAt(j.g, j.from, d.solid, 1);
    assert Grown(k) == Back(j, d.(solid := d.solid + 1), at, id);
  }

  /** The first block of a transaction without copies. */
  lemma FirstHarmless(g: Geometry, id: Word, seg: seq<Block>, rs: seq<nat>)
    requires TxnReads(g, id, seg, [], rs)
    ensures seg != [] && Harmless(g, seg[0], id)
  {
    var nd: nat, nr: nat :| SplitReads(g, id, seg, [], rs, nd, nr);
    if nd > 0 {
      assert seg[..nd][0] == seg[0];
    } else if nr > 0 {
      assert seg[nd..nd + nr][0] == seg[0];
    }
  }

  /** The block the superblock points to begins the first transaction left behind. */
  lemma LagStart(j: State, d: Trail, at: nat, id: Word)
    requires Trails(j, d, at, id) && Intact(j, d) && Total(d.lag) > 0
    ensures at == At(j.g, j.from, Length(j.g) - Total(d.lag)) && d.lag != []
    ensures at < |j.ring| && Harmless(j.g, j.ring[at], id)
  {
    hide Tiles, Stale, RunReads, Flat, V, Harmless;
    var k := Back(j, d, at, id);
    LagNotEmpty(d.lag);
    FirstBlock(k);
  }

  lemma LagNotEmpty(lag: seq<Trans>)
    requires Total(lag) > 0
    ensures lag != []
  {
  }

  /** The first block of the oldest queued transaction. */
  lemma FirstBlock(k: State)
    requires Ok(k) && k.queue != [] && PureRevokes(k.queue)
    ensures k.start < |k.ring| && Harmless(k.g, k.ring[k.start], k.transId)
  {
    hide Tiles, Stale, SplitReads, TxnReads, Harmless;
    var run, p := Contents(k.queue), Length(k.g) - Total(k.queue);
    assert TxnReads(k.g, Id(k.transId, 0 + 0), k.segs[0], run[0].copies, run[0].revokes);
    FirstHarmless(k.g, Id(k.transId, 0), k.segs[0], run[0].revokes);
    FlatHead(k.segs);
    assert V(k)[p..][0] == Flat(k.segs)[0] == k.segs[0][0];
    assert V(k)[p] == k.ring[At(k.g, k.from, p)];
    assert Id(k.transId, 0) == k.transId;
  }

  // ----- a block of the transaction being written reaches the ring -----

  /** The trail after block `o` was written: everything given out so far is solid. */
  ghost function After(j: State, d: Trail, o: nat): Trail
    requires j.g.first <= j.g.maxlen
  {
    var L := Length(j.g);
    var h := if Total(d.lag) + d.solid <= L < Total(d.lag) + j.cur && o + Total(d.lag) != L then d.solid
             else if o == d.hole then j.g.maxlen else d.hole;
    d.(solid := j.cur, hole := h)
  }

  /** Data, or a record of the transaction being written. */
  predicate OfTxn(b: Block, id: Word) {
    |b| >= 4 && (b[0] != MAGIC || b[2] == id)
  }

  /** Which write may come next: the block given out last, or the open descriptor, in this order. */
  ghost predicate MayWrite(j: State, d: Trail, o: nat, b: Block)
    requires j.g.first <= j.g.maxlen
  {
    && o < j.cur && |b| == j.g.words && OfTxn(b, CurId(j))
    && (o + 1 == j.cur || d.solid == j.cur)
    && (d.solid + 1 >= j.cur || (d.solid + 2 == j.cur && o + 1 == j.cur && b[0] != MAGIC))
    && (d.hole == j.g.maxlen || o >= d.solid || o == d.hole)
  }

  lemma PutIntact(j: State, d: Trail, at: nat, id: Word, o: nat, b: Block)
    requires Trails(j, d, at, id) && MayWrite(j, d, o, b) && Total(d.lag) + j.cur <= Length(j.g)
    ensures At(j.g, j.from, o) < |j.ring| && Ok(Back(Put(j, o, b), d.(solid := j.cur), at, id))
  {
    hide Text, Tiles;
    var d1 := d;
    if d1.solid < j.cur {
      BackGrow(j, d1, at, id);
      d1 := d1.(solid := d1.solid + 1);
    }
    if d1.solid < j.cur {
      BackGrow(j, d1, at, id);
      d1 := d1.(solid := d1.solid + 1);
    }
    PutKeeps(Back(j, d1, at, id), o, b);
    assert Put(Back(j, d1, at, id), o, b) == Back(Put(j, o, b), d1, at, id);
  }

  lemma PutSpends(j: State, d: Trail, at: nat, id: Word, o: nat, b: Block)
    requires TrailShape(j, d, at, id) && OfTxn(b, CurId(j)) && o < j.cur && at == At(j.g, j.from, o) && d.lag != []
    ensures at < |j.ring| && Spent(Put(j, o, b), d, at, id)
  {
    var n := |d.lag|;
    assert CurId(j) == Id(id, n);
  }

  /** The first time the transaction reaches the superblock's block. */
  lemma PutReaches(j: State, d: Trail, at: nat, id: Word, o: nat, b: Block)
    requires Trails(j, d, at, id) && MayWrite(j, d, o, b)
    requires Total(d.lag) + d.solid <= Length(j.g) < Total(d.lag) + j.cur
    ensures At(j.g, j.from, o) < |j.ring|
    ensures Spent(Put(j, o, b), d, at, id) || Broken(Put(j, o, b), After(j, d, o), at, id)
  {
    hide Text, Tiles, Spent, Ok;
    LagStart(j, d, at, id);
    var p := Length(j.g) - Total(d.lag);
    if o == p {
      PutSpends(j, d, at, id, o, b);
    } else {
      AtDiffers(j.g, j.from, p, o);
      assert Put(j, o, b).ring[at] == j.ring[at];
    }
  }

  lemma PutBehind(j: State, d: Trail, at: nat, id: Word, o: nat, b: Block)
    requires Trails(j, d, at, id) && MayWrite(j, d, o, b) && !Intact(j, d) && d.lag != []
    ensures At(j.g, j.from, o) < |j.ring|
    ensures Spent(Put(j, o, b), d, at, id) || Broken(Put(j, o, b), After(j, d, o), at, id)
  {
    hide Text, Tiles, Ok;
    if at == At(j.g, j.from, o) {
      PutSpends(j, d, at, id, o, b);
    } else {
      assert Put(j, o, b).ring[at] == j.ring[at];
      if Broken(j, d, at, id) {
        AtDiffers(j.g, j.from, d.hole + 1, o);
      }
    }
  }

  lemma NoLag(lag: seq<Trans>)
    ensures lag == [] ==> Total(lag) == 0
  {
  }

  /** Every write of the journal keeps what the superblock leads to. */
  lemma TrailPut(j: State, d: Trail, at: nat, id: Word, o: nat, b: Block)
    requires Trails(j, d, at, id) && MayWrite(j, d, o, b)
    ensures At(j.g, j.from, o) < |j.ring| && Trails(Put(j, o, b), After(j, d, o), at, id)
  {
    hide Text, Tiles, Ok, Spent, Broken, Total;
    PutShape(j, o, b);
    NoLag(d.lag);
    if Total(d.lag) + j.cur <= Length(j.g) {
      PutIntact(j, d, at, id, o, b);
      assert Back(Put(j, o, b), After(j, d, o), at, id) == Back(Put(j, o, b), d.(solid := j.cur), at, id);
    } else if Intact(j, d) {
      PutReaches(j, d, at, id, o, b);
      SpentSame(Put(j, o, b), d, After(j, d, o), at, id);
    } else {
      PutBehind(j, d, at, id, o, b);
      SpentSame(Put(j, o, b), d, After(j, d, o), at, id);
    }
  }

  lemma SpentSame(j: State, d: Trail, d': Trail, at: nat, id: Word)
    requires d'.lag == d.lag && at < |j.ring|
    ensures Spent(j, d, at, id) <==> Spent(j, d', at, id)
  {
  }

  // ----- a transaction without copies is left behind at once -----

  ghost function Longer(j: State, d: Trail, c: Content): Trail
    requires Shape(j)
  {
    Trail(d.lag + [Trans(CurId(j), j.from, j.cur, 0, 0, c)], d.segs + [V(j)[..j.cur]], 0, j.g.maxlen)
  }

  lemma TrailJoin(j: State, d: Trail, at: nat, id: Word, c: Content)
    requires Ok(j) && Trails(j, d, at, id) && d.solid == j.cur > 0 && d.hole == j.g.maxlen && c.copies == []
    requires TxnReads(j.g, CurId(j), V(j)[..j.cur], c.copies, c.revokes)
    ensures Ok(Joined(j, 0, 0, c)) && Joined(j, 0, 0, c).segs != []
    ensures Trails(Dropped(Joined(j, 0, 0, c)), Longer(j, d, c), at, id)
  {
    JoinKeeps(j, 0, 0, c);
    DropKeeps(Joined(j, 0, 0, c));
    JoinedFields(j, c);
    LongerFields(j, d, id, c);
    hide Text, Tiles, Total, TxnReads, At;
    if Intact(j, d) {
      BackJoins(j, d, at, id, c);
    } else {
      assert Spent(j, d, at, id);
      SpentLonger(j, d, at, id, c);
    }
  }

  lemma LongerFields(j: State, d: Trail, id: Word, c: Content)
    requires Shape(j) && j.queue == [] && Id(id, |d.lag|) == j.transId
    ensures Total(Longer(j, d, c).lag) == Total(d.lag) + j.cur && Id(id, |d.lag| + 1) == Id(j.transId, 1)
  {
    TotalAppend(d.lag, Trans(CurId(j), j.from, j.cur, 0, 0, c));
    IdAdd(id, |d.lag|, 1);
  }

  lemma SpentLonger(j: State, d: Trail, at: nat, id: Word, c: Content)
    requires Shape(j) && at < |j.ring| && Spent(j, d, at, id)
    ensures Spent(j, Longer(j, d, c), at, id)
  {
  }

  /** Seen from the superblock, the transaction joins the ones left behind. */
  lemma BackJoins(j: State, d: Trail, at: nat, id: Word, c: Content)
    requires Ok(j) && Trails(j, d, at, id) && Intact(j, d) && d.solid == j.cur > 0
    requires TxnReads(j.g, CurId(j), V(j)[..j.cur], c.copies, c.revokes)
    ensures Ok(Joined(j, 0, 0, c)) && Joined(j, 0, 0, c).segs != []
    ensures Ok(Back(Dropped(Joined(j, 0, 0, c)), Longer(j, d, c), at, id))
  {
    var k := Back(j, d, at, id);
    JoinedFields(j, c);
    JoinKeeps(j, 0, 0, c);
    assert V(k) == V(j) && CurId(k) == CurId(j) by {
      assert Id(j.transId, 0) == j.transId;
    }
    JoinKeeps(k, 0, 0, c);
    hide Text, Tiles, Total, TxnReads, At, Ok;
    AtAt(j.g, j.from, j.cur, 0);
    AtAt(j.g, j.last, 0, 0);
    assert Joined(k, 0, 0, c) == Back(Dropped(Joined(j, 0, 0, c)), Longer(j, d, c), at, id);
  }

  lemma JoinedFields(j: State, c: Content)
    requires Ok(j) && j.queue == []
    ensures var k := Joined(j, 0, 0, c);
      && k.segs != [] && k.g.first <= k.g.maxlen && Dropped(k).queue == [] && Dropped(k).segs == []
      && Dropped(k).transId == Id(j.transId, 1) && CurId(j) == j.transId
      && Dropped(k).from == j.last && Dropped(k).cur == 0 && Dropped(k).last == j.last
      && Dropped(k).ring == j.ring && Dropped(k).g == j.g && Dropped(k).clean == j.clean
  {
    assert j.segs == [];
  }

  // ----- the rest of the ring -----

  /** From `j` on, nothing behind the blocks given out has been written. */
  ghost predicate Beyond(j: State, j': State) {
    && Shape(j) && Shape(j') && j'.g == j.g && j'.from == j.from && j.cur <= j'.cur
    && V(j')[j'.cur..] == V(j)[j'.cur..]
  }

  lemma BeyondSelf(j: State)
    requires Ok(j)
    ensures Beyond(j, j)
  {
  }

  lemma BeyondTrans(a: State, b: State, c: State)
    requires Beyond(a, b) && Beyond(b, c)
    ensures Beyond(a, c)
  {
    hide Tiles;
    var n := c.cur - b.cur;
    assert V(b)[c.cur..] == V(b)[b.cur..][n..];
    assert V(a)[c.cur..] == V(a)[b.cur..][n..];
  }

  lemma BeyondPut(j: State, j': State, o: nat, b: Block)
    requires Ok(j) && Ok(j') && j'.g == j.g && j'.from == j.from && j.cur <= j'.cur && o < j'.cur
    requires V(j') == V(j) || (o < |V(j)| && V(j') == V(j)[o := b])
    ensures Beyond(j, j')
  {
    hide Tiles, Text;
  }
}
