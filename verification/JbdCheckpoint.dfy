/**
 * Checkpointing from the ring: a block that is no longer in the cache is copied from its data block
 * in the journal to its home place as it is, without putting an escaped first word back.
 */
module JbdCheckpoint {
  import opened JbdFormat
  import opened JbdLog
  import opened JbdRecover
  import opened JbdText
  import opened JbdHistory
  import opened JbdRing
  import opened JbdState
  import opened JbdWrite
  import opened JbdJournal
  import opened JbdSession
  import opened JbdCrash

  /** Which block of a transaction is the data block of copy `n`. */
  function DataAt(g: Geometry, bs: seq<Block>, n: nat): nat
    decreases |bs|
  {
    if bs == [] then 0
    else
      var k := |TableOf(g, bs[0])|;
      if n < k || 1 + k > |bs| then 1 + n else 1 + k + DataAt(g, bs[1 + k..], n - k)
  }

  /** A data block that equals the contents logged with it exactly if these do not begin with the magic word. */
  predicate Raw(d: Block, data: Block) {
    data != [] ==>
      && (d == data <==> data[0] != MAGIC)
      && (data[0] == MAGIC ==> Unescape(d, true) == data)
  }

  lemma RawBlock(tags: seq<Tag>, ds: seq<Block>, cs: seq<Logged>, n: nat)
    requires ChunkOk(tags, ds, cs) && n < |cs|
    ensures n < |ds| && Raw(ds[n], cs[n].data)
  {
  }

  /** Where the data block of a copy lies, one descriptor at a time. */
  lemma DataStep(g: Geometry, bs: seq<Block>, n: nat)
    requires bs != [] && 1 + |TableOf(g, bs[0])| <= |bs|
    ensures var k := |TableOf(g, bs[0])|;
      DataAt(g, bs, n) == if n < k then 1 + n else 1 + k + DataAt(g, bs[1 + k..], n - k)
  {
  }

  lemma {:induction false} RawCopy(g: Geometry, id: Word, bs: seq<Block>, cs: seq<Logged>, nd: nat, n: nat)
    requires nd <= |bs| && ReadsAs(g, id, bs[..nd], cs) && n < |cs|
    ensures DataAt(g, bs, n) < nd && Raw(bs[DataAt(g, bs, n)], cs[n].data)
    decreases nd
  {
    hide TableOf, ReadsAs, ChunkOk, Raw, DataAt;
    CopyHead(g, id, bs, cs, nd);
    DataStep(g, bs, n);
    var table := TableOf(g, bs[0]);
    if n < |table| {
      RawBlock(table, bs[1..1 + |table|], cs[..|table|], n);
    } else {
      RawCopy(g, id, bs[1 + |table|..], cs[|table|..], nd - 1 - |table|, n - |table|);
    }
  }

  /** The first descriptor with its data blocks, and the rest. */
  lemma CopyHead(g: Geometry, id: Word, bs: seq<Block>, cs: seq<Logged>, nd: nat)
    requires nd <= |bs| && ReadsAs(g, id, bs[..nd], cs) && cs != []
    ensures nd > 0 && var k := |TableOf(g, bs[0])|;
      && 1 + k <= nd && k <= |cs| && ChunkOk(TableOf(g, bs[0]), bs[1..1 + k], cs[..k])
      && ReadsAs(g, id, bs[1 + k..][..nd - 1 - k], cs[k..])
  {
    var front := bs[..nd];
    ReadsHead(g, id, front, cs);
    hide TableOf, ReadsAs, ChunkOk, Header;
    assert front[0] == bs[0];
    var k := |TableOf(g, bs[0])|;
    assert front[1..1 + k] == bs[1..1 + k];
    assert front[1 + k..] == bs[1 + k..][..nd - 1 - k];
  }

  /**
   * The block that checkpointing copies home for copy `n` of queued transaction `i` is what the
   * transaction logged, if and only if that does not begin with the magic word of the journal.
   */
  lemma CheckpointCopies(j: State, i: nat, n: nat)
    requires Ok(j) && i < |j.queue| && n < |j.queue[i].content.copies| && j.queue[i].content.copies[n].data != []
    ensures |j.segs| == |j.queue|
    ensures var o, data := DataAt(j.g, j.segs[i], n), j.queue[i].content.copies[n].data;
      var at := At(j.g, j.queue[i].startBlock, o);
      && o < j.queue[i].alloc && at < |j.ring|
      && (j.ring[at] == data <==> data[0] != MAGIC)
  {
    var c, run := j.queue[i].content, Contents(j.queue);
    assert TxnReads(j.g, Id(j.transId, 0 + i), j.segs[i], run[i].copies, run[i].revokes);
    var id := Id(j.transId, 0 + i);
    var nd: nat, nr: nat :| SplitReads(j.g, id, j.segs[i], c.copies, c.revokes, nd, nr);
    hide ReadsAs, RevokesAs, Ok, DataAt;
    RawCopy(j.g, id, j.segs[i], c.copies, nd, n);
    SegmentBlock(j, i, DataAt(j.g, j.segs[i], n));
  }

  /** A transaction that logs a block beginning with the magic word. */
  method EscapedCheckpoint() returns (j: Journal)
    ensures Ok(j.Now()) && |j.queue| == 1 == |j.segs| && |j.queue[0].content.copies| == 1
    ensures var at := At(j.g, j.queue[0].startBlock, DataAt(j.g, j.segs[0], 0));
      at < |j.ring| && j.ring[at] != j.queue[0].content.copies[0].data
  {
    hide Ok, Untouched;
    var g, blank := Geometry(256, 1, 6, false), seq(256, i => 0);
    j := new Journal(g, [0, 0, 0, 0], seq(6, i => blank), 0);
    CommitOne(j, Buf(7, true, blank[0 := MAGIC]));
    CheckpointCopies(j.Now(), 0, 0);
  }
}
