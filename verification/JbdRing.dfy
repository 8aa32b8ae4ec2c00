/** The log area as a ring seen from a fixed block, and the checkpoint queue laid out on it. */
module JbdRing {
  import opened JbdFormat
  import opened JbdLog
  import opened JbdText
  import opened JbdHistory

  /** The whole ring, read from block `from` on. */
  ghost function View(g: Geometry, ring: seq<Block>, from: nat): seq<Block>
    requires GeometryOk(g) && RingOk(g, ring) && g.first <= from < g.maxlen
  {
    seq(Length(g), o requires 0 <= o < Length(g) => ring[At(g, from, o)])
  }

  lemma ViewPut(g: Geometry, ring: seq<Block>, from: nat, o: nat, b: Block)
    requires GeometryOk(g) && RingOk(g, ring) && g.first <= from < g.maxlen && o < Length(g) && |b| == g.words
    ensures RingOk(g, ring[At(g, from, o) := b])
    ensures View(g, ring[At(g, from, o) := b], from) == View(g, ring, from)[o := b]
  {
  }

  lemma ViewTurn(g: Geometry, ring: seq<Block>, from: nat, n: nat)
    requires GeometryOk(g) && RingOk(g, ring) && g.first <= from < g.maxlen && n <= Length(g)
    ensures g.first <= At(g, from, n) < g.maxlen
    ensures View(g, ring, At(g, from, n)) == View(g, ring, from)[n..] + View(g, ring, from)[..n]
  {
    var v := View(g, ring, from);
    assert |v| == Length(g);
    var w := v[n..] + v[..n];
    forall o | 0 <= o < Length(g) ensures View(g, ring, At(g, from, n))[o] == w[o] {
      if o < Length(g) - n {
        assert w[o] == v[n + o];
      } else {
        assert w[o] == v[o - (Length(g) - n)];
      }
    }
  }

  lemma AtAt(g: Geometry, from: nat, n: nat, o: nat)
    requires GeometryOk(g) && g.first <= from < g.maxlen && n <= Length(g) && o <= Length(g)
    ensures At(g, At(g, from, n), o) == if n + o <= Length(g) then At(g, from, n + o) else At(g, from, n +
      o - Length(g))
    ensures g.first <= At(g, from, n) < g.maxlen
    ensures At(g, from, Length(g)) == from && At(g, from, 0) == from
  {
  }

  lemma AtDiffers(g: Geometry, from: nat, n: nat, o: nat)
    requires GeometryOk(g) && g.first <= from < g.maxlen && n < Length(g) && o < Length(g) && n != o
    ensures At(g, from, n) != At(g, from, o)
  {
  }

  // ----- the checkpoint queue -----

  /** A committed transaction some of whose blocks have not reached their home place. */
  datatype Trans = Trans(id: Word, startBlock: nat, alloc: nat, dataCnt: nat, writtenCnt: nat, content: Content)

  function Total(queue: seq<Trans>): nat {
    if queue == [] then 0 else queue[0].alloc + Total(queue[1..])
  }

  /** The transactions follow each other on the ring from block `at`, with consecutive ids from `id`. */
  ghost predicate Tiles(g: Geometry, queue: seq<Trans>, at: nat, id: Word)
    requires g.first <= g.maxlen
    decreases queue
  {
    queue != [] ==>
      && queue[0].startBlock == at && queue[0].id == id
      && 0 < queue[0].alloc <= Length(g) && queue[0].writtenCnt <= queue[0].dataCnt
      && Tiles(g, queue[1..], Wrap(g, at + queue[0].alloc), Id(id, 1))
  }

  lemma {:induction false} TotalAppend(queue: seq<Trans>, t: Trans)
    ensures Total(queue + [t]) == Total(queue) + t.alloc
  {
    if queue == [] {
      assert (queue + [t])[1..] == [];
    } else {
      TotalAppend(queue[1..], t);
      assert (queue + [t])[1..] == queue[1..] + [t];
    }
  }

  lemma IdAdd(id: Word, a: nat, b: nat)
    ensures Id(Id(id, a), b) == Id(id, a + b)
  {
    var q := (id + a) / WORD_LIMIT;
    assert id + a == q * WORD_LIMIT + Id(id, a);
    assert id + a + b == q * WORD_LIMIT + (Id(id, a) + b);
    Residue(Id(id, a) + b, q);
  }

  lemma {:induction false} TilesAppend(g: Geometry, queue: seq<Trans>, at: nat, id: Word, t: Trans)
    requires GeometryOk(g) && g.first <= at < g.maxlen && Tiles(g, queue, at, id) && Total(queue) + t.alloc <= Length(g)
    requires t.startBlock == At(g, at, Total(queue)) && t.id == Id(id, |queue|)
    requires 0 < t.alloc && t.writtenCnt <= t.dataCnt
    ensures Tiles(g, queue + [t], at, id)
  {
    if queue == [] {
      assert (queue + [t])[1..] == [];
    } else {
      var rest := queue[1..];
      IdAdd(id, 1, |rest|);
      AtAt(g, at, queue[0].alloc, Total(rest));
      TilesAppend(g, rest, Wrap(g, at + queue[0].alloc), Id(id, 1), t);
      assert (queue + [t])[1..] == rest + [t];
      assert (queue + [t])[0] == queue[0];
    }
  }

  /** Changing how much of a transaction is written moves nothing. */
  lemma {:induction false} TilesCount(g: Geometry, queue: seq<Trans>, at: nat, id: Word, i: nat, n: nat)
    requires g.first <= g.maxlen && Tiles(g, queue, at, id) && i < |queue| && n <= queue[i].dataCnt
    ensures Tiles(g, queue[i := queue[i].(writtenCnt := n)], at, id)
    ensures Total(queue[i := queue[i].(writtenCnt := n)]) == Total(queue)
    decreases i
  {
    var queue' := queue[i := queue[i].(writtenCnt := n)];
    if i == 0 {
      assert queue'[1..] == queue[1..];
    } else {
      TilesCount(g, queue[1..], Wrap(g, at + queue[0].alloc), Id(id, 1), i - 1, n);
      assert queue'[1..] == queue[1..][i - 1 := queue[i].(writtenCnt := n)];
    }
  }

  /** Where transaction `i` lies and which id it has, in closed form. */
  lemma {:induction false} TilesAt(g: Geometry, queue: seq<Trans>, at: nat, id: Word, i: nat)
    requires GeometryOk(g) && g.first <= at < g.maxlen && Tiles(g, queue, at, id) && Total(queue) <= Length(g) &&
      i < |queue|
    ensures Total(queue[..i]) + queue[i].alloc <= Total(queue)
    ensures queue[i].startBlock == At(g, at, Total(queue[..i])) && queue[i].id == Id(id, i) && queue[i].alloc > 0
    decreases i
  {
    if i > 0 {
      var rest := queue[1..];
      AtAt(g, at, queue[0].alloc, 0);
      TilesAt(g, rest, Wrap(g, at + queue[0].alloc), Id(id, 1), i - 1);
      IdAdd(id, 1, i - 1);
      assert queue[..i][1..] == rest[..i - 1];
      AtAt(g, at, queue[0].alloc, Total(rest[..i - 1]));
    } else {
      assert queue[..0] == [];
    }
  }

  /** Every transaction takes at least one block. */
  lemma {:induction false} TilesShort(g: Geometry, queue: seq<Trans>, at: nat, id: Word)
    requires g.first <= g.maxlen && Tiles(g, queue, at, id)
    ensures |queue| <= Total(queue)
  {
    if queue != [] {
      TilesShort(g, queue[1..], Wrap(g, at + queue[0].alloc), Id(id, 1));
    }
  }

  function Contents(queue: seq<Trans>): seq<Content> {
    seq(|queue|, i requires 0 <= i < |queue| => queue[i].content)
  }

  // ----- stale blocks -----

  /** The block looks like a record of the transaction with this id. */
  predicate Marked(b: Block, id: Word) {
    |b| >= 4 && b[0] == MAGIC && b[2] == id
  }

  /** No block of `bs` looks like a record of one of the next transactions: block `i` is reused before `n + i` more. */
  ghost predicate Stale(bs: seq<Block>, n: nat, id: Word) {
    forall i, j :: 0 <= i < |bs| && 0 <= j <= n + i && bs[i] != [] && bs[i][0] == MAGIC && |bs[i]| >= 4 ==>
        bs[i][2] != Id(id, j)
  }
}
