/** A run of whole transactions in the journal, and what recovering it means for the home blocks. */
module JbdHistory {
  import opened JbdFormat
  import opened JbdLog
  import opened JbdRecover
  import opened JbdText

  /** What one transaction logs: block contents and revoked blocks. */
  datatype Content = Content(copies: seq<Logged>, revokes: seq<nat>)

  /** A logged copy with the number of its transaction. */
  datatype Entry = Entry(txn: nat, item: Logged)

  ghost function Stamp(cs: seq<Logged>, k: nat): seq<Entry> {
    seq(|cs|, i requires 0 <= i < |cs| => Entry(k, cs[i]))
  }

  /** All logged copies of a run of transactions, oldest first. */
  ghost function Entries(run: seq<Content>, k: nat): seq<Entry> {
    if run == [] then [] else Stamp(run[0].copies, k) + Entries(run[1..], k + 1)
  }

  ghost predicate Agree(log: Log, copies: seq<Copy>, es: seq<Entry>)
    requires LogOk(log)
  {
    && |copies| == |es|
    && forall i :: 0 <= i < |es| ==>
         && copies[i].txn == es[i].txn && copies[i].block == es[i].item.block && copies[i].at <= Length(log.g)
         && Unescape(BlockAt(log, copies[i].at), copies[i].escape) == es[i].item.data
  }

  /** The records say what the transactions contain, the first of them being number `k`. */
  ghost predicate Says(log: Log, recs: seq<Record>, k: nat, run: seq<Content>)
    requires LogOk(log)
  {
    && Commits(recs) == |run|
    && (forall i :: 0 <= i < |recs| ==> k <= recs[i].txn < k + |run|)
    && Agree(log, Copies(recs), Entries(run, k))
    && RevokesRun(recs, k, run)
  }

  ghost predicate RevokesRun(recs: seq<Record>, k: nat, run: seq<Content>) {
    forall b, j: nat :: Revoking(recs, b, j) <==> k <= j < k + |run| && b in run[j - k].revokes
  }

  // ----- joining records -----

  lemma {:induction false} CopiesAppend(a: seq<Record>, b: seq<Record>)
    ensures Copies(a + b) == Copies(a) + Copies(b)
  {
    hide CopiesOf, Copies;
    if a == [] {
      assert a + b == b;
      NoCopies(b);
    } else {
      CopiesAppend(a[1..], b);
      assert a + b == [a[0]] + (a[1..] + b);
      assert a == [a[0]] + a[1..];
      CopiesHead(a[0], a[1..] + b);
      CopiesHead(a[0], a[1..]);
      Join3(CopiesOf(a[0]), Copies(a[1..]), Copies(b));
    }
  }

  lemma NoCopies(b: seq<Record>)
    ensures Copies([]) + Copies(b) == Copies(b)
  {
  }

  lemma Join3(a: seq<Copy>, b: seq<Copy>, c: seq<Copy>)
    ensures a + (b + c) == (a + b) + c
  {
  }

  lemma {:induction false} CommitsAppend(a: seq<Record>, b: seq<Record>)
    ensures Commits(a + b) == Commits(a) + Commits(b)
  {
    if a == [] {
      assert a + b == b;
    } else {
      CommitsAppend(a[1..], b);
      assert (a + b)[1..] == a[1..] + b;
    }
  }

  lemma RevokingAppend(a: seq<Record>, b: seq<Record>, x: nat, k: nat)
    ensures Revoking(a + b, x, k) <==> Revoking(a, x, k) || Revoking(b, x, k)
  {
    var c := a + b;
    if Revoking(a, x, k) {
      var i :| 0 <= i < |a| && a[i].Revocation? && a[i].txn == k && x in a[i].blocks;
      assert c[i] == a[i];
    }
    if Revoking(b, x, k) {
      var i :| 0 <= i < |b| && b[i].Revocation? && b[i].txn == k && x in b[i].blocks;
      assert c[|a| + i] == b[i];
    }
    if Revoking(c, x, k) {
      var i :| 0 <= i < |c| && c[i].Revocation? && c[i].txn == k && x in c[i].blocks;
      assert c[i] == if i < |a| then a[i] else b[i - |a|];
    }
  }

  lemma MatchesAgrees(log: Log, copies: seq<Copy>, k: nat, cs: seq<Logged>)
    requires LogOk(log) && Matches(log, copies, k, cs)
    ensures Agree(log, copies, Stamp(cs, k))
  {
  }

  // ----- one transaction -----

  lemma TxnRead(log: Log, o: nat, k: nat, seg: seq<Block>, c: Content) returns (recs: seq<Record>)
    requires LogOk(log) && Holds(log, o, seg) && TxnReads(log.g, Id(log.id, k), seg, c.copies, c.revokes)
    requires Fits(log, o + |seg|, k + 1)
    ensures Fits(log, o, k) && Records(log, o, k) == recs + Records(log, o + |seg|, k + 1)
    ensures Says(log, recs, k, [c])
  {
    hide Records, Fits, ReadsAs, RevokesAs, Holds, LogOk, BlockAt, RevokesExactly, Matches, Says, Header,
      NoRevocations, InTxn, Commits, Copies, Id, SplitReads;
    var id := Id(log.id, k);
    var nd: nat, nr: nat :| SplitReads(log.g, id, seg, c.copies, c.revokes, nd, nr);
    var e := nd + nr;
    SplitParts(log, o, id, seg, c, nd, nr);
    CommitHere(log, o + e, k);
    var rs := RevokesRead(log, o + nd, k, seg[nd..e], c.revokes);
    var ds := DescriptorsRead(log, o, k, seg[..nd], c.copies);
    recs := ds + rs + [Commit(k)];
    var rest := Records(log, o + |seg|, k + 1);
    assert ds + (rs + ([Commit(k)] + rest)) == recs + rest;
    TxnSays(log, k, c, ds, rs);
  }

  lemma SplitParts(log: Log, o: nat, id: Word, seg: seq<Block>, c: Content, nd: nat, nr: nat)
    requires LogOk(log) && Holds(log, o, seg) && SplitReads(log.g, id, seg, c.copies, c.revokes, nd, nr)
    ensures nd + nr + 1 == |seg|
    ensures Holds(log, o, seg[..nd]) && ReadsAs(log.g, id, seg[..nd], c.copies)
    ensures Holds(log, o + nd, seg[nd..nd + nr]) && RevokesAs(log.g, id, seg[nd..nd + nr], c.revokes)
    ensures o + nd + nr < Length(log.g) && Header(BlockAt(log, o + nd + nr), COMMIT, id)
  {
    hide ReadsAs, RevokesAs, Holds, LogOk, Header, BlockAt;
    var e := nd + nr;
    HoldsPart(log, o, seg, 0, nd);
    HoldsPart(log, o, seg, nd, e);
    HoldsPart(log, o, seg, e, |seg|);
    assert seg[0..nd] == seg[..nd];
    HoldsFirst(log, o + e, seg[e..|seg|]);
  }

  lemma TxnSays(log: Log, k: nat, c: Content, ds: seq<Record>, rs: seq<Record>)
    requires LogOk(log) && Matches(log, Copies(ds), k, c.copies) && NoRevocations(ds) && InTxn(ds, k) &&
      Commits(ds) == 0
    requires Copies(rs) == [] && RevokesExactly(rs, k, c.revokes) && InTxn(rs, k) && Commits(rs) == 0
    ensures Says(log, ds + rs + [Commit(k)], k, [c])
  {
    hide LogOk, Matches, Agree, RevokesExactly, Revoking, Copies, Commits, Entries, Stamp, RevokesRun, NoRevocations;
    var recs := ds + rs + [Commit(k)];
    CopiesAppend(ds, rs);
    CopiesAppend(ds + rs, [Commit(k)]);
    CommitsAppend(ds, rs);
    CommitsAppend(ds + rs, [Commit(k)]);
    OneCommit(k);
    assert Copies(recs) == Copies(ds);
    MatchesAgrees(log, Copies(ds), k, c.copies);
    OneContent(c, k);
    TxnRevokes(k, c, ds, rs);
  }

  lemma OneCommit(k: nat)
    ensures Commits([Commit(k)]) == 1 && Copies([Commit(k)]) == []
  {
    assert [Commit(k)][1..] == [];
  }

  lemma OneContent(c: Content, k: nat)
    ensures Entries([c], k) == Stamp(c.copies, k)
  {
    assert [c][1..] == [];
  }

  lemma TxnRevokes(k: nat, c: Content, ds: seq<Record>, rs: seq<Record>)
    requires NoRevocations(ds) && RevokesExactly(rs, k, c.revokes) && InTxn(rs, k)
    ensures RevokesRun(ds + rs + [Commit(k)], k, [c])
  {
    forall b, j: nat ensures Revoking(ds + rs + [Commit(k)], b, j) <==> k <= j < k + |[c]| && b in [c][j - k].revokes {
      RevokingAppend(ds + rs, [Commit(k)], b, j);
      RevokingAppend(ds, rs, b, j);
      assert j != k ==> !Revoking(rs, b, j);
    }
  }

  // ----- a run of transactions -----

  ghost function Flat(segs: seq<seq<Block>>): seq<Block> {
    if segs == [] then [] else segs[0] + Flat(segs[1..])
  }

  /** Each segment reads as the transaction in the same place, numbered from `k`. */
  ghost predicate RunReads(g: Geometry, first: Word, segs: seq<seq<Block>>, k: nat, run: seq<Content>) {
    && |segs| == |run|
    && forall i :: 0 <= i < |segs| ==> TxnReads(g, Id(first, k + i), segs[i], run[i].copies, run[i].revokes)
  }

  lemma SaysAppend(log: Log, k: nat, a: seq<Record>, c: Content, b: seq<Record>, run: seq<Content>)
    requires LogOk(log) && Says(log, a, k, [c]) && Says(log, b, k + 1, run)
    ensures Says(log, a + b, k, [c] + run)
  {
    hide LogOk, Entries, Copies, Commits, Agree, RevokesRun, Stamp;
    CopiesAppend(a, b);
    CommitsAppend(a, b);
    OneContent(c, k);
    EntriesCons(c, run, k);
    AgreeAppend(log, Copies(a), Stamp(c.copies, k), Copies(b), Entries(run, k + 1));
    RevokesRunAppend(k, a, c, b, run);
  }

  lemma EntriesCons(c: Content, run: seq<Content>, k: nat)
    ensures Entries([c] + run, k) == Stamp(c.copies, k) + Entries(run, k + 1)
  {
    assert ([c] + run)[1..] == run;
  }

  lemma AgreeAppend(log: Log, a: seq<Copy>, es: seq<Entry>, b: seq<Copy>, es': seq<Entry>)
    requires LogOk(log) && Agree(log, a, es) && Agree(log, b, es')
    ensures Agree(log, a + b, es + es')
  {
  }

  lemma RevokesRunAppend(k: nat, a: seq<Record>, c: Content, b: seq<Record>, run: seq<Content>)
    requires RevokesRun(a, k, [c]) && RevokesRun(b, k + 1, run)
    ensures RevokesRun(a + b, k, [c] + run)
  {
    hide Revoking;
    var all := [c] + run;
    forall x, j: nat ensures Revoking(a + b, x, j) <==> k <= j < k + |all| && x in all[j - k].revokes {
      RevokingAppend(a, b, x, j);
      assert j > k ==> (j - k < |all| ==> all[j - k] == run[j - k - 1]);
    }
  }

  lemma {:induction false} RunRead(log: Log, o: nat, k: nat, segs: seq<seq<Block>>,
                                   run: seq<Content>) returns (recs: seq<Record>)
    requires LogOk(log) && Holds(log, o, Flat(segs)) && RunReads(log.g, log.id, segs, k, run)
    requires Fits(log, o + |Flat(segs)|, k + |run|)
    ensures Fits(log, o, k) && Records(log, o, k) == recs + Records(log, o + |Flat(segs)|, k + |run|)
    ensures Says(log, recs, k, run)
    decreases |segs|
  {
    hide Records, Fits, Holds, LogOk, BlockAt, Says, TxnReads;
    if segs == [] {
      recs := [];
      NothingSaid(log, k);
      assert run == [] && o + |Flat(segs)| == o && k + |run| == k;
      assert [] + Records(log, o, k) == Records(log, o, k);
    } else {
      var all, seg := Flat(segs), segs[0];
      assert all == seg + Flat(segs[1..]);
      HoldsPart(log, o, all, 0, |seg|);
      HoldsPart(log, o, all, |seg|, |all|);
      assert all[0..|seg|] == seg && all[|seg|..|all|] == Flat(segs[1..]);
      assert TxnReads(log.g, Id(log.id, k + 0), segs[0], run[0].copies, run[0].revokes);
      RunTail(log.g, log.id, segs, k, run);
      assert o + |seg| + |Flat(segs[1..])| == o + |all| && k + 1 + |run[1..]| == k + |run|;
      var tail := RunRead(log, o + |seg|, k + 1, segs[1..], run[1..]);
      var head := TxnRead(log, o, k, seg, run[0]);
      recs := head + tail;
      assert head + (tail + Records(log, o + |all|, k + |run|)) == recs + Records(log, o + |all|, k + |run|);
      SaysAppend(log, k, head, run[0], tail, run[1..]);
      assert [run[0]] + run[1..] == run;
    }
  }

  lemma RunTail(g: Geometry, first: Word, segs: seq<seq<Block>>, k: nat, run: seq<Content>)
    requires RunReads(g, first, segs, k, run) && segs != []
    ensures RunReads(g, first, segs[1..], k + 1, run[1..])
  {
    forall i | 0 <= i < |segs[1..]|
      ensures TxnReads(g, Id(first, k + 1 + i), segs[1..][i], run[1..][i].copies, run[1..][i].revokes)
    {
      var j := i + 1;
      assert TxnReads(g, Id(first, k + j), segs[j], run[j].copies, run[j].revokes);
    }
  }

  lemma NothingSaid(log: Log, k: nat)
    requires LogOk(log)
    ensures Says(log, [], k, [])
  {
  }

  // ----- recovering a run -----

  ghost predicate RevokedLater(run: seq<Content>, b: nat, k: nat) {
    exists j :: k <= j < |run| && b in run[j].revokes
  }

  ghost predicate NewestEntry(run: seq<Content>, es: seq<Entry>, i: nat) {
    && i < |es| && !RevokedLater(run, es[i].item.block, es[i].txn)
    && forall j :: i < j < |es| && es[j].item.block == es[i].item.block ==>
        RevokedLater(run, es[j].item.block, es[j].txn)
  }

  /** Block `b` holds the newest contents logged for it and not revoked since, or is untouched. */
  ghost predicate Replayed(run: seq<Content>, before: Store, after: Store, b: nat) {
    var es := Entries(run, 0);
    && ((forall i :: 0 <= i < |es| && es[i].item.block == b ==> RevokedLater(run, b, es[i].txn)) ==>
          && (b in after.blocks <==> b in before.blocks)
          && (b in before.blocks ==> after.blocks[b] == before.blocks[b]))
    && (forall i :: 0 <= i < |es| && es[i].item.block == b && NewestEntry(run, es, i) ==>
          b in after.blocks && after.blocks[b] == es[i].item.data)
  }

  lemma CancelledMeans(log: Log, recs: seq<Record>, run: seq<Content>, c: Copy)
    requires LogOk(log) && Says(log, recs, 0, run)
    ensures Cancelled(recs, c) <==> RevokedLater(run, c.block, c.txn)
  {
    if Cancelled(recs, c) {
      var i :| 0 <= i < |recs| && recs[i].Revocation? && c.block in recs[i].blocks && c.txn <= recs[i].txn;
      assert Revoking(recs, c.block, recs[i].txn);
    }
    if RevokedLater(run, c.block, c.txn) {
      var j :| c.txn <= j < |run| && c.block in run[j].revokes;
      assert Revoking(recs, c.block, j);
    }
  }

  /** A log that consists of the run, and of no further committed transaction. */
  lemma WholeRun(log: Log, segs: seq<seq<Block>>, run: seq<Content>)
    requires LogOk(log) && Holds(log, 0, Flat(segs)) && RunReads(log.g, log.id, segs, 0, run)
    requires |Flat(segs)| < Length(log.g) ==> !Expected(log, BlockAt(log, |Flat(segs)|), |run|)
    ensures Fits(log, 0, 0) && Commits(Records(log, 0, 0)) == |run|
    ensures Says(log, Committed(log), 0, run)
  {
    var e := |Flat(segs)|;
    assert Fits(log, e, |run|) && Records(log, e, |run|) == [];
    var recs := RunRead(log, 0, 0, segs, run);
    assert Records(log, 0, 0) == recs;
    hide Records, Fits, Holds, LogOk;
    AllLive(recs, |run|);
  }

  lemma {:induction false} AllLive(recs: seq<Record>, n: nat)
    requires forall i :: 0 <= i < |recs| ==> recs[i].txn < n
    ensures Live(recs, n) == recs
  {
    if recs != [] {
      AllLive(recs[1..], n);
    }
  }

  /** Recovering such a log replays the run. */
  lemma RunRestored(log: Log, run: seq<Content>, before: Store, after: Store, b: nat)
    requires LogOk(log) && Fits(log, 0, 0) && Says(log, Committed(log), 0, run)
    requires Restored(log, before, after, b)
    ensures Replayed(run, before, after, b)
  {
    var recs := Committed(log);
    var cs, es := Copies(recs), Entries(run, 0);
    hide LogOk, Fits, Committed, Copies, Entries, Cancelled, BlockAt, RevokedLater;
    forall i | 0 <= i < |es| ensures Cancelled(recs, cs[i]) <==> RevokedLater(run, es[i].item.block, es[i].txn) {
      CancelledMeans(log, recs, run, cs[i]);
    }
    forall i | 0 <= i < |es| && es[i].item.block == b && NewestEntry(run, es, i)
      ensures b in after.blocks && after.blocks[b] == es[i].item.data
    {
      assert Newest(recs, cs, i);
    }
  }
}
