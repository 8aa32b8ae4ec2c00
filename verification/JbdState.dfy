/**
 * The state of a running journal: the checkpoint queue on the ring, the blocks given to the
 * transaction that is being written, and the stale rest.
 */
module JbdState {
  import opened JbdFormat
  import opened JbdLog
  import opened JbdRecover
  import opened JbdText
  import opened JbdHistory
  import opened JbdRing

  /**
   * `from` is where the transaction being written begins and `cur` how many blocks it has;
   * `segs` are the blocks of the queued transactions.  `clean` says that the session began on a
   * ring without blocks that could be taken for its transactions.
   */
  datatype State = State(g: Geometry, ring: seq<Block>, start: nat, last: nat, transId: Word,
                         queue: seq<Trans>, segs: seq<seq<Block>>, from: nat, cur: nat, clean: bool)

  ghost predicate Shape(j: State) {
    && GeometryOk(j.g) && RingOk(j.g, j.ring) && j.g.first <= j.from < j.g.maxlen
    && Total(j.queue) + j.cur <= Length(j.g)
    && j.start == At(j.g, j.from, Length(j.g) - Total(j.queue))
    && j.last == At(j.g, j.from, j.cur)
    && Tiles(j.g, j.queue, j.start, j.transId)
  }

  ghost predicate SegLengths(j: State) {
    |j.segs| == |j.queue| && forall i :: 0 <= i < |j.segs| ==> |j.segs[i]| == j.queue[i].alloc
  }

  /** The id of the transaction being written. */
  function CurId(j: State): Word {
    Id(j.transId, |j.queue|)
  }

  ghost function V(j: State): seq<Block>
    requires Shape(j)
  {
    View(j.g, j.ring, j.from)
  }

  ghost predicate Text(j: State)
    requires Shape(j)
  {
    && SegLengths(j)
    && RunReads(j.g, j.transId, j.segs, 0, Contents(j.queue))
    && V(j)[Length(j.g) - Total(j.queue)..] == Flat(j.segs)
    && (j.clean ==> Stale(V(j)[j.cur..Length(j.g) - Total(j.queue)], j.cur, CurId(j)))
  }

  ghost predicate Ok(j: State) {
    Shape(j) && Text(j)
  }

  // ----- ids -----

  lemma IdDiffers(id: Word, a: nat, b: nat)
    requires a < b < a + WORD_LIMIT
    ensures Id(id, a) != Id(id, b)
  {
    var qa, qb := (id + a) / WORD_LIMIT, (id + b) / WORD_LIMIT;
    var x: int, y: int := Id(id, a), Id(id, b);
    assert id + a == qa * WORD_LIMIT + x && id + b == qb * WORD_LIMIT + y;
    assert b - a == (qb - qa) * WORD_LIMIT + (y - x);
  }

  /** Every block of a transaction that looks like a record carries the transaction's id. */
  ghost predicate Signed(bs: seq<Block>, id: Word) {
    forall i :: 0 <= i < |bs| && bs[i] != [] && bs[i][0] == MAGIC && |bs[i]| >= 4 ==> bs[i][2] == id
  }

  lemma {:induction false} ReadsSigned(g: Geometry, id: Word, bs: seq<Block>, cs: seq<Logged>)
    requires ReadsAs(g, id, bs, cs)
    ensures Signed(bs, id)
    decreases |bs|
  {
    hide TableOf;
    if bs != [] {
      var n := |TableOf(g, bs[0])|;
      ReadsSigned(g, id, bs[1 + n..], cs[n..]);
      forall i | 1 <= i < 1 + n ensures bs[i] == bs[1..1 + n][i - 1] && bs[i][0] != MAGIC {
      }
      forall i | 1 + n <= i < |bs| ensures bs[i] == bs[1 + n..][i - 1 - n] {
      }
    }
  }

  lemma {:induction false} RevokesSigned(g: Geometry, id: Word, bs: seq<Block>, rs: seq<nat>)
    requires RevokesAs(g, id, bs, rs)
    ensures Signed(bs, id)
    decreases |bs|
  {
    hide Revokes;
    if bs != [] {
      RevokesSigned(g, id, bs[1..], rs[|Revokes(g, bs[0])|..]);
      forall i | 1 <= i < |bs| ensures bs[i] == bs[1..][i - 1] {
      }
    }
  }

  lemma TxnSigned(g: Geometry, id: Word, seg: seq<Block>, cs: seq<Logged>, rs: seq<nat>)
    requires TxnReads(g, id, seg, cs, rs)
    ensures Signed(seg, id)
  {
    var nd: nat, nr: nat :| SplitReads(g, id, seg, cs, rs, nd, nr);
    ReadsSigned(g, id, seg[..nd], cs);
    RevokesSigned(g, id, seg[nd..nd + nr], rs);
    hide ReadsAs, RevokesAs;
    forall i | 0 <= i < |seg| && seg[i] != [] && seg[i][0] == MAGIC && |seg[i]| >= 4 ensures seg[i][2] == id {
      if i < nd {
        assert seg[i] == seg[..nd][i];
      } else if i < nd + nr {
        assert seg[i] == seg[nd..nd + nr][i - nd];
      }
    }
  }

  /** Blocks of an old transaction are stale for all transactions that can follow before they are reused. */
  lemma SignedStale(bs: seq<Block>, n: nat, id: Word, a: nat, b: nat)
    requires Signed(bs, Id(id, a)) && a < b && b + n + |bs| < a + WORD_LIMIT
    ensures Stale(bs, n, Id(id, b))
  {
    forall i, j | 0 <= i < |bs| && 0 <= j <= n + i && bs[i] != [] && bs[i][0] == MAGIC && |bs[i]| >= 4
      ensures bs[i][2] != Id(Id(id, b), j)
    {
      IdAdd(id, b, j);
      IdDiffers(id, a, b + j);
    }
  }

  lemma StaleAppend(a: seq<Block>, b: seq<Block>, n: nat, id: Word)
    requires Stale(a, n, id) && Stale(b, n + |a|, id)
    ensures Stale(a + b, n, id)
  {
    forall i, j | 0 <= i < |a + b| && 0 <= j <= n + i && (a + b)[i] != [] && (a + b)[i][0] == MAGIC && |(a + b)[i]| >= 4
      ensures (a + b)[i][2] != Id(id, j)
    {
      if i >= |a| {
        assert (a + b)[i] == b[i - |a|];
      }
    }
  }

  // ----- the oldest transaction leaves -----

  function Dropped(j: State): State
    requires j.queue != [] && j.segs != [] && j.g.first <= j.g.maxlen
  {
    j.(start := Wrap(j.g, j.queue[0].startBlock + j.queue[0].alloc), transId := Id(j.transId, 1),
       queue := j.queue[1..], segs := j.segs[1..])
  }

  lemma DropShape(j: State)
    requires Shape(j) && j.queue != [] && j.segs != []
    ensures Shape(Dropped(j)) && CurId(Dropped(j)) == CurId(j) && V(Dropped(j)) == V(j)
    ensures Total(j.queue) == j.queue[0].alloc + Total(j.queue[1..])
  {
    AtAt(j.g, j.from, Length(j.g) - Total(j.queue), j.queue[0].alloc);
    IdAdd(j.transId, 1, |j.queue| - 1);
  }

  lemma DropRun(j: State)
    requires Shape(j) && SegLengths(j) && j.queue != [] && RunReads(j.g, j.transId, j.segs, 0, Contents(j.queue))
    ensures SegLengths(Dropped(j)) && RunReads(j.g, Id(j.transId, 1), j.segs[1..], 0, Contents(j.queue[1..]))
    ensures Signed(j.segs[0], j.transId)
  {
    hide TxnReads, Shape;
    var run, run' := Contents(j.queue), Contents(j.queue[1..]);
    forall i | 0 <= i < |j.segs[1..]|
      ensures TxnReads(j.g, Id(Id(j.transId, 1), 0 + i), j.segs[1..][i], run'[i].copies, run'[i].revokes)
    {
      var m := i + 1;
      assert TxnReads(j.g, Id(j.transId, 0 + m), j.segs[m], run[m].copies, run[m].revokes);
      IdAdd(j.transId, 1, i);
    }
    assert TxnReads(j.g, Id(j.transId, 0 + 0), j.segs[0], run[0].copies, run[0].revokes);
    TxnSigned(j.g, Id(j.transId, 0), j.segs[0], run[0].copies, run[0].revokes);
    assert Id(j.transId, 0) == j.transId;
  }

  lemma DropKeeps(j: State)
    requires Ok(j) && j.queue != []
    ensures Ok(Dropped(j)) && CurId(Dropped(j)) == CurId(j) && V(Dropped(j)) == V(j)
  {
    hide Shape, RunReads, Signed, Stale, Tiles, V, SegLengths, Flat, Total, Contents, CurId, Id;
    ShapeFacts(j);
    QueueFacts(j);
    DropShape(j);
    DropRun(j);
    var L, n, n' := Length(j.g), Total(j.queue), Total(j.queue[1..]);
    var seg, v := j.segs[0], V(j);
    FlatHead(j.segs);
    CutSeq(v, j.cur, L - n, L - n', seg, Flat(j.segs[1..]));
    SignedStale(seg, L - n, j.transId, 0, |j.queue|);
    if j.clean {
      StaleAppend(v[j.cur..L - n], seg, j.cur, CurId(j));
    }
  }

  lemma QueueFacts(j: State)
    requires Shape(j) && SegLengths(j)
    ensures |j.queue| <= Total(j.queue) && Id(j.transId, 0) == j.transId && CurId(j) == Id(j.transId, |j.queue|)
    ensures j.queue != [] ==> |j.segs| > 0 && |j.segs[0]| == j.queue[0].alloc
  {
    TilesShort(j.g, j.queue, j.start, j.transId);
  }

  lemma FlatHead(segs: seq<seq<Block>>)
    requires segs != []
    ensures Flat(segs) == segs[0] + Flat(segs[1..])
  {
  }

  lemma CutSeq(v: seq<Block>, a: nat, b: nat, c: nat, seg: seq<Block>, rest: seq<Block>)
    requires a <= b <= c <= |v| && v[b..] == seg + rest && |seg| == c - b
    ensures v[c..] == rest && v[a..c] == v[a..b] + seg
  {
    assert v[c..] == v[b..][|seg|..];
    assert v[b..c] == v[b..][..|seg|];
    assert v[a..c] == v[a..b] + v[b..c];
  }

  lemma ShapeFacts(j: State)
    requires Shape(j)
    ensures GeometryOk(j.g) && Total(j.queue) + j.cur <= Length(j.g) < 0x8000_0000 && |V(j)| == Length(j.g)
  {
  }

  // ----- one more block for the transaction being written -----

  function Grown(j: State): State
    requires j.g.first <= j.g.maxlen
  {
    j.(last := Wrap(j.g, j.last + 1), cur := j.cur + 1)
  }

  lemma GrowKeeps(j: State)
    requires Ok(j) && Total(j.queue) + j.cur < Length(j.g)
    ensures Ok(Grown(j)) && V(Grown(j)) == V(j) && CurId(Grown(j)) == CurId(j)
  {
    hide Shape, RunReads, Stale, V, SegLengths, Flat, Total, Contents, CurId;
    GrowShape(j);
    ShapeFacts(j);
    var L, n, v := Length(j.g), Total(j.queue), V(j);
    if j.clean {
      StaleTail(v[j.cur..L - n], j.cur, CurId(j));
    }
    assert v[j.cur..L - n][1..] == v[j.cur + 1..L - n];
    SegsSame(j, Grown(j));
  }

  lemma GrowShape(j: State)
    requires Shape(j) && Total(j.queue) + j.cur < Length(j.g)
    ensures Shape(Grown(j)) && V(Grown(j)) == V(j) && CurId(Grown(j)) == CurId(j)
  {
    AtAt(j.g, j.from, j.cur, 1);
  }

  lemma SegsSame(j: State, j': State)
    requires j'.segs == j.segs && j'.queue == j.queue
    ensures SegLengths(j') <==> SegLengths(j)
  {
  }

  lemma StaleTail(bs: seq<Block>, n: nat, id: Word)
    requires Stale(bs, n, id) && bs != []
    ensures Stale(bs[1..], n + 1, id)
  {
    forall i, m | 0 <= i < |bs[1..]| && 0 <= m <= n + 1 + i && bs[1..][i] != [] && bs[1..][i][0] == MAGIC &&
        |bs[1..][i]| >= 4
      ensures bs[1..][i][2] != Id(id, m)
    {
      var k := i + 1;
      assert bs[1..][i] == bs[k];
    }
  }

  // ----- writing one of its blocks -----

  function Put(j: State, o: nat, b: Block): State
    requires j.g.first <= j.g.maxlen && At(j.g, j.from, o) < |j.ring|
  {
    j.(ring := j.ring[At(j.g, j.from, o) := b])
  }

  lemma PutKeeps(j: State, o: nat, b: Block)
    requires Ok(j) && o < j.cur && |b| == j.g.words
    ensures At(j.g, j.from, o) < |j.ring|
    ensures Ok(Put(j, o, b)) && V(Put(j, o, b)) == V(j)[o := b] && CurId(Put(j, o, b)) == CurId(j)
  {
    hide Shape, RunReads, Stale, V, SegLengths, Flat, Total, Contents, CurId;
    ShapeFacts(j);
    PutShape(j, o, b);
    var L, n, v := Length(j.g), Total(j.queue), V(j);
    assert v[o := b][L - n..] == v[L - n..];
    assert v[o := b][j.cur..L - n] == v[j.cur..L - n];
    SegsSame(j, Put(j, o, b));
  }

  lemma PutShape(j: State, o: nat, b: Block)
    requires Shape(j) && o < j.cur && |b| == j.g.words
    ensures At(j.g, j.from, o) < |j.ring|
    ensures Shape(Put(j, o, b)) && V(Put(j, o, b)) == V(j)[o := b] && CurId(Put(j, o, b)) == CurId(j)
  {
    ViewPut(j.g, j.ring, j.from, o, b);
  }

  // ----- the transaction is complete -----

  /** The transaction being written joins the queue. */
  ghost function Joined(j: State, dataCnt: nat, writtenCnt: nat, c: Content): State
    requires Shape(j)
  {
    var t := Trans(CurId(j), j.from, j.cur, dataCnt, writtenCnt, c);
    j.(queue := j.queue + [t], segs := j.segs + [V(j)[..j.cur]], from := j.last, cur := 0)
  }

  lemma JoinShape(j: State, dataCnt: nat, writtenCnt: nat, c: Content)
    requires Shape(j) && 0 < j.cur && writtenCnt <= dataCnt
    ensures Shape(Joined(j, dataCnt, writtenCnt, c))
    ensures Total(Joined(j, dataCnt, writtenCnt, c).queue) == Total(j.queue) + j.cur
    ensures V(Joined(j, dataCnt, writtenCnt, c)) == V(j)[j.cur..] + V(j)[..j.cur]
    ensures CurId(Joined(j, dataCnt, writtenCnt, c)) == Id(CurId(j), 1)
  {
    var t := Trans(CurId(j), j.from, j.cur, dataCnt, writtenCnt, c);
    var L, n := Length(j.g), Total(j.queue);
    TotalAppend(j.queue, t);
    AtAt(j.g, j.from, L - n, n);
    TilesAppend(j.g, j.queue, j.start, j.transId, t);
    AtAt(j.g, j.from, j.cur, L - n - j.cur);
    AtAt(j.g, j.last, 0, 0);
    ViewTurn(j.g, j.ring, j.from, j.cur);
    IdAdd(j.transId, |j.queue|, 1);
  }

  lemma JoinRun(j: State, dataCnt: nat, writtenCnt: nat, c: Content, seg: seq<Block>)
    requires Shape(j) && SegLengths(j) && RunReads(j.g, j.transId, j.segs, 0, Contents(j.queue))
    requires seg == V(j)[..j.cur] && TxnReads(j.g, CurId(j), seg, c.copies, c.revokes)
    ensures SegLengths(Joined(j, dataCnt, writtenCnt, c))
    ensures var j' := Joined(j, dataCnt, writtenCnt, c);
      RunReads(j'.g, j'.transId, j'.segs, 0, Contents(j'.queue))
  {
    assert |V(j)| == Length(j.g);
    var j' := Joined(j, dataCnt, writtenCnt, c);
    var run, run' := Contents(j.queue), Contents(j'.queue);
    hide TxnReads, Shape, V;
    forall i | 0 <= i < |j'.segs|
      ensures TxnReads(j.g, Id(j.transId, 0 + i), j'.segs[i], run'[i].copies, run'[i].revokes)
    {
      if i < |j.segs| {
        assert TxnReads(j.g, Id(j.transId, 0 + i), j.segs[i], run[i].copies, run[i].revokes);
      }
    }
  }

  lemma {:induction false} FlatAppend(segs: seq<seq<Block>>, seg: seq<Block>)
    ensures Flat(segs + [seg]) == Flat(segs) + seg
  {
    if segs == [] {
      assert (segs + [seg])[1..] == [];
    } else {
      FlatAppend(segs[1..], seg);
      assert (segs + [seg])[1..] == segs[1..] + [seg];
    }
  }

  lemma StaleNext(bs: seq<Block>, n: nat, id: Word)
    requires Stale(bs, n, id) && n > 0
    ensures Stale(bs, 0, Id(id, 1))
  {
    forall i, m | 0 <= i < |bs| && 0 <= m <= 0 + i && bs[i] != [] && bs[i][0] == MAGIC && |bs[i]| >= 4
      ensures bs[i][2] != Id(Id(id, 1), m)
    {
      IdAdd(id, 1, m);
      var k := 1 + m;
      assert k <= n + i;
    }
  }

  lemma JoinKeeps(j: State, dataCnt: nat, writtenCnt: nat, c: Content)
    requires Ok(j) && 0 < j.cur && writtenCnt <= dataCnt
    requires TxnReads(j.g, CurId(j), V(j)[..j.cur], c.copies, c.revokes)
    ensures Ok(Joined(j, dataCnt, writtenCnt, c))
    ensures CurId(Joined(j, dataCnt, writtenCnt, c)) == Id(CurId(j), 1)
  {
    hide Shape, RunReads, Stale, TxnReads, Flat, Total, V, SegLengths, Contents, CurId;
    ShapeFacts(j);
    var L, n, v := Length(j.g), Total(j.queue), V(j);
    var seg := v[..j.cur];
    JoinShape(j, dataCnt, writtenCnt, c);
    JoinRun(j, dataCnt, writtenCnt, c, seg);
    FlatAppend(j.segs, seg);
    if j.clean {
      StaleNext(v[j.cur..L - n], j.cur, CurId(j));
    }
    var v' := v[j.cur..] + seg;
    assert v'[L - n - j.cur..] == v[L - n..] + seg;
    assert v'[0..L - n - j.cur] == v[j.cur..L - n];
  }
}
