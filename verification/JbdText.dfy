/**
 * What a stretch of journal blocks says, independently of where on the ring it lies, and
 * how the log reader of JbdLog sees such stretches.
 */
module JbdText {
  import opened JbdFormat
  import opened JbdLog
  import opened JbdRecover

  /** A home block and the contents logged for it. */
  datatype Logged = Logged(block: nat, data: Block)

  predicate Header(b: Block, kind: Word, id: Word) {
    |b| >= 4 && b[0] == MAGIC && b[1] == kind && b[2] == id
  }

  /** Tags and data blocks of one descriptor carry the copies `cs`. */
  ghost predicate ChunkOk(tags: seq<Tag>, ds: seq<Block>, cs: seq<Logged>) {
    && |tags| == |ds| == |cs|
    && forall i :: 0 <= i < |tags| ==>
         && ds[i] != [] && ds[i][0] != MAGIC && tags[i].block == cs[i].block
         && Unescape(ds[i], tags[i].escape) == cs[i].data
  }

  /** Descriptor blocks with their data that carry the copies `cs`. */
  ghost predicate ReadsAs(g: Geometry, id: Word, bs: seq<Block>, cs: seq<Logged>)
    decreases |bs|
  {
    if bs == [] then cs == []
    else
      && Header(bs[0], DESCRIPTOR, id)
      && var n := |TableOf(g, bs[0])|;
      && 1 + n <= |bs| && n <= |cs|
      && ChunkOk(TableOf(g, bs[0]), bs[1..1 + n], cs[..n])
      && ReadsAs(g, id, bs[1 + n..], cs[n..])
  }

  /** Revoke blocks that name the blocks `rs`. */
  ghost predicate RevokesAs(g: Geometry, id: Word, bs: seq<Block>, rs: seq<nat>)
    decreases |bs|
  {
    if bs == [] then rs == []
    else
      && Header(bs[0], REVOKE, id) && CountOk(bs[0])
      && |Revokes(g, bs[0])| <= |rs|
      && Revokes(g, bs[0]) == rs[..|Revokes(g, bs[0])|]
      && RevokesAs(g, id, bs[1..], rs[|Revokes(g, bs[0])|..])
  }

  lemma {:induction false} ReadsAppend(g: Geometry, id: Word, bs: seq<Block>, cs: seq<Logged>, bs': seq<Block>,
                                       cs': seq<Logged>)
    requires ReadsAs(g, id, bs, cs) && ReadsAs(g, id, bs', cs')
    ensures ReadsAs(g, id, bs + bs', cs + cs')
    decreases |bs|
  {
    if bs == [] {
      assert cs == [] && bs + bs' == bs' && cs + cs' == cs';
    } else {
      ReadsHead(g, id, bs, cs);
      hide ChunkOk, TableOf, Header, ReadsAs;
      var n := |TableOf(g, bs[0])|;
      ReadsAppend(g, id, bs[1 + n..], cs[n..], bs', cs');
      ReadsCons(g, id, bs, cs, bs', cs');
    }
  }

  lemma ReadsCons(g: Geometry, id: Word, bs: seq<Block>, cs: seq<Logged>, bs': seq<Block>, cs': seq<Logged>)
    requires bs != [] && Header(bs[0], DESCRIPTOR, id)
    requires var n := |TableOf(g, bs[0])|;
      && 1 + n <= |bs| && n <= |cs| && ChunkOk(TableOf(g, bs[0]), bs[1..1 + n], cs[..n])
      && ReadsAs(g, id, bs[1 + n..] + bs', cs[n..] + cs')
    ensures ReadsAs(g, id, bs + bs', cs + cs')
  {
    hide ChunkOk, TableOf, Header;
    var n := |TableOf(g, bs[0])|;
    assert (bs + bs')[0] == bs[0];
    assert (bs + bs')[1..1 + n] == bs[1..1 + n] && (cs + cs')[..n] == cs[..n];
    assert (bs + bs')[1 + n..] == bs[1 + n..] + bs' && (cs + cs')[n..] == cs[n..] + cs';
  }

  lemma {:induction false} RevokesAppend(g: Geometry, id: Word, bs: seq<Block>, rs: seq<nat>, bs': seq<Block>,
                                         rs': seq<nat>)
    requires RevokesAs(g, id, bs, rs) && RevokesAs(g, id, bs', rs')
    ensures RevokesAs(g, id, bs + bs', rs + rs')
    decreases |bs|
  {
    if bs == [] {
      assert bs + bs' == bs' && rs + rs' == rs';
    } else {
      var n := |Revokes(g, bs[0])|;
      RevokesAppend(g, id, bs[1..], rs[n..], bs', rs');
      assert (bs + bs')[1..] == bs[1..] + bs' && (rs + rs')[n..] == rs[n..] + rs' && (rs + rs')[..n] == rs[..n];
    }
  }

  /** A whole transaction: descriptors with data, revoke blocks, a commit block. */
  ghost predicate TxnReads(g: Geometry, id: Word, seg: seq<Block>, cs: seq<Logged>, rs: seq<nat>) {
    exists nd: nat, nr: nat :: SplitReads(g, id, seg, cs, rs, nd, nr)
  }

  ghost predicate SplitReads(g: Geometry, id: Word, seg: seq<Block>, cs: seq<Logged>, rs: seq<nat>, nd: nat, nr: nat) {
    && nd + nr + 1 == |seg|
    && ReadsAs(g, id, seg[..nd], cs)
    && RevokesAs(g, id, seg[nd..nd + nr], rs)
    && Header(seg[nd + nr], COMMIT, id)
  }

  // ----- as seen by the log reader -----

  /** The blocks `bs` lie at offset `o` of the log. */
  ghost predicate Holds(log: Log, o: nat, bs: seq<Block>)
    requires LogOk(log)
  {
    o + |bs| <= Length(log.g) && forall i :: 0 <= i < |bs| ==> BlockAt(log, o + i) == bs[i]
  }

  lemma HoldsPart(log: Log, o: nat, bs: seq<Block>, i: nat, j: nat)
    requires LogOk(log) && Holds(log, o, bs) && i <= j <= |bs|
    ensures Holds(log, o + i, bs[i..j])
  {
    forall n | 0 <= n < j - i ensures BlockAt(log, o + i + n) == bs[i..j][n] {
      assert BlockAt(log, o + (i + n)) == bs[i + n];
    }
  }

  /** The copies found agree with what was logged. */
  ghost predicate Matches(log: Log, copies: seq<Copy>, k: nat, cs: seq<Logged>)
    requires LogOk(log)
  {
    && |copies| == |cs|
    && forall i :: 0 <= i < |cs| ==>
         && copies[i].txn == k && copies[i].block == cs[i].block && copies[i].at <= Length(log.g)
         && Unescape(BlockAt(log, copies[i].at), copies[i].escape) == cs[i].data
  }

  ghost predicate Revoking(recs: seq<Record>, b: nat, k: nat) {
    exists i :: 0 <= i < |recs| && recs[i].Revocation? && recs[i].txn == k && b in recs[i].blocks
  }

  ghost predicate NoRevocations(recs: seq<Record>) {
    forall i :: 0 <= i < |recs| ==> !recs[i].Revocation?
  }

  ghost predicate InTxn(recs: seq<Record>, k: nat) {
    forall i :: 0 <= i < |recs| ==> recs[i].txn == k
  }

  lemma {:induction false} TagCopiesAt(tags: seq<Tag>, txn: nat, at: nat)
    ensures |TagCopies(tags, txn, at)| == |tags|
    ensures forall i :: 0 <= i < |tags| ==>
      TagCopies(tags, txn, at)[i] == Copy(txn, at + i, tags[i].block, tags[i].escape)
  {
    if tags != [] {
      TagCopiesAt(tags[1..], txn, at + 1);
    }
  }

  lemma ChunkMatches(log: Log, o: nat, k: nat, tags: seq<Tag>, ds: seq<Block>, cs: seq<Logged>)
    requires LogOk(log) && ChunkOk(tags, ds, cs) && Holds(log, o, ds)
    ensures Matches(log, TagCopies(tags, k, o), k, cs)
  {
    TagCopiesAt(tags, k, o);
    forall i | 0 <= i < |cs|
      ensures Unescape(BlockAt(log, TagCopies(tags, k, o)[i].at), TagCopies(tags, k, o)[i].escape) == cs[i].data
    {
      assert BlockAt(log, o + i) == ds[i];
    }
  }

  lemma MatchesAppend(log: Log, a: seq<Copy>, b: seq<Copy>, k: nat, cs: seq<Logged>, cs': seq<Logged>)
    requires LogOk(log) && Matches(log, a, k, cs) && Matches(log, b, k, cs')
    ensures Matches(log, a + b, k, cs + cs')
  {
  }

  /** Descriptor blocks read as the copies they carry. */
  lemma {:induction false} DescriptorsRead(log: Log, o: nat, k: nat, bs: seq<Block>,
                                           cs: seq<Logged>) returns (recs: seq<Record>)
    requires LogOk(log) && Holds(log, o, bs) && ReadsAs(log.g, Id(log.id, k), bs, cs) && Fits(log, o + |bs|, k)
    ensures Fits(log, o, k) && Records(log, o, k) == recs + Records(log, o + |bs|, k)
    ensures Matches(log, Copies(recs), k, cs) && NoRevocations(recs) && InTxn(recs, k) && Commits(recs) == 0
    decreases |bs|
  {
    hide Records, Fits, ReadsAs, ChunkOk, Holds, Matches, LogOk, TableOf, Header, BlockAt, Copies, CopiesOf,
      NoRevocations, InTxn, Commits;
    ReadsHead(log.g, Id(log.id, k), bs, cs);
    if bs == [] {
      recs := [];
      NothingRead(log, k);
      Nothing(k);
      assert o + |bs| == o && [] + Records(log, o, k) == Records(log, o, k);
    } else {
      var table := TableOf(log.g, bs[0]);
      var n := |table|;
      HoldsPart(log, o, bs, 1 + n, |bs|);
      HoldsPart(log, o, bs, 1, 1 + n);
      HoldsFirst(log, o, bs);
      assert bs[1 + n..|bs|] == bs[1 + n..];
      var tail := DescriptorsRead(log, o + 1 + n, k, bs[1 + n..], cs[n..]);
      var rec := Descriptor(k, o, table);
      recs := [rec] + tail;
      DescriptorHere(log, o, k, table);
      assert o + 1 + n + |bs[1 + n..]| == o + |bs|;
      Regroup(rec, tail, Records(log, o + |bs|, k));
      ChunkMatches(log, o + 1, k, table, bs[1..1 + n], cs[..n]);
      MoreMatches(log, rec, tail, k, cs, n);
    }
  }

  lemma Regroup(rec: Record, a: seq<Record>, b: seq<Record>)
    ensures [rec] + (a + b) == ([rec] + a) + b
  {
  }

  lemma MoreMatches(log: Log, rec: Record, tail: seq<Record>, k: nat, cs: seq<Logged>, n: nat)
    requires LogOk(log) && n <= |cs| && rec.Descriptor? && rec.txn == k
    requires Matches(log, TagCopies(rec.tags, k, rec.at + 1), k, cs[..n]) && Matches(log, Copies(tail), k, cs[n..])
    requires NoRevocations(tail) && InTxn(tail, k) && Commits(tail) == 0
    ensures Matches(log, Copies([rec] + tail), k, cs)
    ensures NoRevocations([rec] + tail) && InTxn([rec] + tail, k) && Commits([rec] + tail) == 0
  {
    hide Matches, LogOk, Copies;
    CopiesHead(rec, tail);
    MatchesAppend(log, CopiesOf(rec), Copies(tail), k, cs[..n], cs[n..]);
    assert cs[..n] + cs[n..] == cs;
    assert ([rec] + tail)[1..] == tail;
  }

  lemma ReadsHead(g: Geometry, id: Word, bs: seq<Block>, cs: seq<Logged>)
    requires ReadsAs(g, id, bs, cs)
    ensures bs == [] ==> cs == []
    ensures bs != [] ==>
      && Header(bs[0], DESCRIPTOR, id)
      && var n := |TableOf(g, bs[0])|;
      && 1 + n <= |bs| && n <= |cs|
      && ChunkOk(TableOf(g, bs[0]), bs[1..1 + n], cs[..n])
      && ReadsAs(g, id, bs[1 + n..], cs[n..])
  {
  }

  lemma HoldsFirst(log: Log, o: nat, bs: seq<Block>)
    requires LogOk(log) && Holds(log, o, bs) && bs != []
    ensures o < Length(log.g) && BlockAt(log, o) == bs[0]
  {
    assert BlockAt(log, o + 0) == bs[0];
  }

  lemma Nothing(k: nat)
    ensures NoRevocations([]) && InTxn([], k) && Commits([]) == 0
  {
  }

  lemma NothingRead(log: Log, k: nat)
    requires LogOk(log)
    ensures Matches(log, Copies([]), k, [])
  {
  }

  lemma DescriptorHere(log: Log, o: nat, k: nat, table: seq<Tag>)
    requires LogOk(log) && o < Length(log.g) && Header(BlockAt(log, o), DESCRIPTOR, Id(log.id, k))
    requires table == TableOf(log.g, BlockAt(log, o)) && Fits(log, o + 1 + |table|, k)
    ensures Fits(log, o, k) && Records(log, o, k) == [Descriptor(k, o, table)] + Records(log, o + 1 + |table|, k)
  {
  }

  lemma RevocationHere(log: Log, o: nat, k: nat)
    requires LogOk(log) && o < Length(log.g) && Header(BlockAt(log, o), REVOKE, Id(log.id, k))
    requires CountOk(BlockAt(log, o)) && Fits(log, o + 1, k)
    ensures Fits(log, o, k)
    ensures Records(log, o, k) == [Revocation(k, Revokes(log.g, BlockAt(log, o)))] + Records(log, o + 1, k)
  {
  }

  lemma CommitHere(log: Log, o: nat, k: nat)
    requires LogOk(log) && o < Length(log.g) && Header(BlockAt(log, o), COMMIT, Id(log.id, k)) &&
      Fits(log, o + 1, k + 1)
    ensures Fits(log, o, k) && Records(log, o, k) == [Commit(k)] + Records(log, o + 1, k + 1)
  {
  }

  /** The records are exactly one set of revocations of transaction `k`. */
  ghost predicate RevokesExactly(recs: seq<Record>, k: nat, rs: seq<nat>) {
    forall b :: Revoking(recs, b, k) <==> b in rs
  }

  lemma RevokesCons(rec: Record, tail: seq<Record>, k: nat, rs: seq<nat>)
    requires rec.Revocation? && rec.txn == k && RevokesExactly(tail, k, rs)
    ensures RevokesExactly([rec] + tail, k, rec.blocks + rs)
  {
    var recs := [rec] + tail;
    forall b ensures Revoking(recs, b, k) <==> b in rec.blocks + rs {
      if Revoking(tail, b, k) {
        var i :| 0 <= i < |tail| && tail[i].Revocation? && tail[i].txn == k && b in tail[i].blocks;
        assert recs[i + 1] == tail[i];
      }
      if Revoking(recs, b, k) {
        var i :| 0 <= i < |recs| && recs[i].Revocation? && recs[i].txn == k && b in recs[i].blocks;
        assert i > 0 ==> tail[i - 1] == recs[i];
      }
      assert b in rec.blocks ==> recs[0] == rec;
    }
  }

  lemma {:induction false} RevokesRead(log: Log, o: nat, k: nat, bs: seq<Block>,
                                       rs: seq<nat>) returns (recs: seq<Record>)
    requires LogOk(log) && Holds(log, o, bs) && RevokesAs(log.g, Id(log.id, k), bs, rs) && Fits(log, o + |bs|, k)
    ensures Fits(log, o, k) && Records(log, o, k) == recs + Records(log, o + |bs|, k)
    ensures Copies(recs) == [] && RevokesExactly(recs, k, rs) && InTxn(recs, k) && Commits(recs) == 0
    decreases |bs|
  {
    hide Records, Fits, RevokesAs, Holds, LogOk, Header, BlockAt, Revokes, CountOk, RevokesExactly;
    RevokesHead(log.g, Id(log.id, k), bs, rs);
    if bs == [] {
      recs := [];
      NothingRevoked(k);
      assert o + |bs| == o && [] + Records(log, o, k) == Records(log, o, k);
    } else {
      var found := Revokes(log.g, bs[0]);
      var n := |found|;
      HoldsPart(log, o, bs, 1, |bs|);
      HoldsFirst(log, o, bs);
      assert bs[1..|bs|] == bs[1..];
      var tail := RevokesRead(log, o + 1, k, bs[1..], rs[n..]);
      RevocationHere(log, o, k);
      var rec := Revocation(k, found);
      recs := [rec] + tail;
      assert o + 1 + |bs[1..]| == o + |bs|;
      Regroup(rec, tail, Records(log, o + |bs|, k));
      CopiesHead(rec, tail);
      RevokesCons(rec, tail, k, rs[n..]);
      assert found + rs[n..] == rs;
      assert recs[1..] == tail;
    }
  }

  lemma RevokesHead(g: Geometry, id: Word, bs: seq<Block>, rs: seq<nat>)
    requires RevokesAs(g, id, bs, rs)
    ensures bs == [] ==> rs == []
    ensures bs != [] ==>
      && Header(bs[0], REVOKE, id) && CountOk(bs[0])
      && |Revokes(g, bs[0])| <= |rs|
      && Revokes(g, bs[0]) == rs[..|Revokes(g, bs[0])|]
      && RevokesAs(g, id, bs[1..], rs[|Revokes(g, bs[0])|..])
  {
  }

  lemma NothingRevoked(k: nat)
    ensures RevokesExactly([], k, [])
  {
  }
}
