/**
 * Two consequences of the way recovery works: it may be interrupted and started again, and
 * what was written behind the last commit record does not matter.
 */
module JbdRerun {
  import opened JbdFormat
  import opened JbdLog
  import opened JbdRecover

  /** The home blocks that recovery of `log` leaves, starting from `s`. */
  ghost function Recovered(log: Log, s: Store): Store
    requires CopiesOk(log) && StoreOk(s)
  {
    Replay(log, RevokeMap(Committed(log), map[]), Copies(Committed(log)), s)
  }

  ghost predicate Same(s: Store, s': Store, b: nat) {
    (b in s.blocks <==> b in s'.blocks) && (b in s.blocks ==> s.blocks[b] == s'.blocks[b])
  }

  ghost predicate HoldsCopy(log: Log, c: Copy, s: Store)
    requires LogOk(log) && c.at <= Length(log.g)
  {
    c.block in s.blocks && s.blocks[c.block] == Unescape(BlockAt(log, c.at), c.escape)
  }

  /** A state in which recovery may have stopped: each block is old or holds some copy that is replayed. */
  ghost predicate Interrupted(log: Log, before: Store, s: Store)
    requires CopiesOk(log)
  {
    var recs := Committed(log);
    var cs := Copies(recs);
    forall b :: b != 0 && !Same(before, s, b) ==> OneCopy(log, recs, cs, s, b)
  }

  ghost predicate OneCopy(log: Log, recs: seq<Record>, cs: seq<Copy>, s: Store, b: nat)
    requires LogOk(log) && InLog(log, cs)
  {
    exists i :: 0 <= i < |cs| && cs[i].block == b && !Cancelled(recs, cs[i]) && HoldsCopy(log, cs[i], s)
  }

  lemma {:induction false} SomeNewest(recs: seq<Record>, cs: seq<Copy>, i: nat, n: nat) returns (j: nat)
    requires i < n <= |cs| && !Cancelled(recs, cs[i])
    requires forall m :: n <= m < |cs| && cs[m].block == cs[i].block ==> Cancelled(recs, cs[m])
    ensures Newest(recs, cs, j) && cs[j].block == cs[i].block
    decreases n
  {
    if cs[n - 1].block == cs[i].block && !Cancelled(recs, cs[n - 1]) {
      j := n - 1;
    } else {
      j := SomeNewest(recs, cs, i, n - 1);
    }
  }

  /** Recovery started again after an interruption ends with the same home blocks. */
  lemma RerunSame(log: Log, before: Store, s: Store)
    requires CopiesOk(log) && StoreOk(before) && StoreOk(s) && Interrupted(log, before, s)
    ensures Recovered(log, s).blocks - {0} == Recovered(log, before).blocks - {0}
  {
    var a, c := Recovered(log, before), Recovered(log, s);
    forall b | b != 0 ensures Same(a, c, b) {
      RerunBlock(log, before, s, b);
    }
    assert forall b :: b in a.blocks - {0} ==> Same(a, c, b);
    assert forall b :: b in c.blocks - {0} ==> Same(a, c, b);
  }

  lemma RerunBlock(log: Log, before: Store, s: Store, b: nat)
    requires CopiesOk(log) && StoreOk(before) && StoreOk(s) && Interrupted(log, before, s) && b != 0
    ensures Same(Recovered(log, before), Recovered(log, s), b)
  {
    var recs := Committed(log);
    var cs := Copies(recs);
    var a, c := Recovered(log, before), Recovered(log, s);
    hide Committed, Copies, Fits, Cancelled, Replay, RevokeMap;
    ReplayStore(log, before);
    ReplayStore(log, s);
    ReplayRestores(log, before, a, b);
    ReplayRestores(log, s, c, b);
    if i :| 0 <= i < |cs| && cs[i].block == b && !Cancelled(recs, cs[i]) {
      var j := SomeNewest(recs, cs, i, |cs|);
    } else {
      assert Same(before, s, b);
    }
  }

  lemma ReplayStore(log: Log, s: Store)
    requires CopiesOk(log) && StoreOk(s)
    ensures StoreOk(Recovered(log, s))
  {
    ReplayAppend(log, RevokeMap(Committed(log), map[]), Copies(Committed(log)), [], s);
  }

  /** Stopping after any number of copies is such an interruption. */
  lemma {:induction false} PrefixInterrupts(log: Log, before: Store, n: nat)
    requires CopiesOk(log) && StoreOk(before) && n <= |Copies(Committed(log))|
    ensures InLog(log, Copies(Committed(log))[..n])
    ensures Interrupted(log, before, Replay(log, RevokeMap(Committed(log), map[]), Copies(Committed(log))[..n], before))
  {
    var recs := Committed(log);
    var cs, revs := Copies(recs), RevokeMap(recs, map[]);
    var part := cs[..n];
    assert InLog(log, part);
    var s := Replay(log, revs, part, before);
    hide Committed, Copies, Fits, Cancelled, Replay, RevokeMap, Skipped, Same;
    forall c ensures Skipped(revs, c) <==> Cancelled(recs, c) {
      CancelledIs(log, c);
    }
    forall b | b != 0 && !Same(before, s, b) ensures OneCopy(log, recs, cs, s, b) {
      PrefixBlock(log, recs, revs, part, before, b);
      var i :| 0 <= i < |part| && part[i].block == b && LastCopy(revs, part, i);
      ReplayLast(log, revs, part, before, i);
      assert part[i] == cs[i];
    }
  }

  lemma PrefixBlock(log: Log, recs: seq<Record>, revs: map<nat, nat>, part: seq<Copy>, before: Store, b: nat)
    requires LogOk(log) && InLog(log, part) && StoreOk(before) && b != 0
    requires forall c :: Skipped(revs, c) <==> Cancelled(recs, c)
    requires !Same(before, Replay(log, revs, part, before), b)
    ensures exists i :: 0 <= i < |part| && part[i].block == b && LastCopy(revs, part, i)
  {
    hide Replay, Cancelled;
    if forall i :: 0 <= i < |part| && part[i].block == b ==> Skipped(revs, part[i]) {
      ReplayUntouched(log, revs, part, before, b);
    } else {
      var i :| 0 <= i < |part| && part[i].block == b && !Skipped(revs, part[i]);
      var j := SomeNewest(recs, part, i, |part|);
      assert LastCopy(revs, part, j);
    }
  }

  // ----- the uncommitted tail -----

  /** Where transaction `n` would begin. */
  ghost function EndOf(log: Log, o: nat, k: nat, n: nat): nat
    requires LogOk(log) && Fits(log, o, k)
    decreases Length(log.g) - o
  {
    if k >= n || Records(log, o, k) == [] then o
    else
      FirstRecord(log, o, k);
      NextLater(log, o);
      EndOf(log, NextAt(log, o), NextTxn(log, o, k), n)
  }

  ghost predicate SameUpTo(log: Log, log': Log, o: nat, e: nat)
    requires LogOk(log) && LogOk(log') && log.g == log'.g
  {
    e <= Length(log.g) && forall i :: o <= i < e ==> BlockAt(log, i) == BlockAt(log', i)
  }

  lemma {:induction false} EndLater(log: Log, o: nat, k: nat, n: nat)
    requires LogOk(log) && Fits(log, o, k)
    ensures o <= EndOf(log, o, k, n) <= Length(log.g)
    ensures k < n && Records(log, o, k) != [] ==> NextAt(log, o) <= EndOf(log, o, k, n)
    decreases Length(log.g) - o
  {
    if k < n && Records(log, o, k) != [] {
      FirstRecord(log, o, k);
      EndLater(log, NextAt(log, o), NextTxn(log, o, k), n);
    }
  }

  lemma SameRecord(log: Log, log': Log, o: nat, k: nat)
    requires LogOk(log) && LogOk(log') && log'.g == log.g && log'.start == log.start && log'.id == log.id
    requires Fits(log, o, k) && Fits(log', o, k) && o < Length(log.g)
    requires BlockAt(log, o) == BlockAt(log', o) && Records(log, o, k) != []
    ensures Records(log', o, k) != [] && Records(log', o, k)[0] == Records(log, o, k)[0]
    ensures NextAt(log, o) == NextAt(log', o) && NextTxn(log, o, k) == NextTxn(log', o, k)
    ensures Records(log, o, k)[0].txn == k
  {
  }

  /** Two logs with the same blocks up to the end of transaction `n - 1` have the same records of those transactions. */
  lemma {:induction false} TailIrrelevant(log: Log, log': Log, o: nat, k: nat, n: nat)
    requires LogOk(log) && LogOk(log') && log'.g == log.g && log'.start == log.start && log'.id == log.id
    requires Fits(log, o, k) && Fits(log', o, k) && n <= k + Commits(Records(log, o, k))
    requires SameUpTo(log, log', o, EndOf(log, o, k, n))
    ensures Live(Records(log, o, k), n) == Live(Records(log', o, k), n)
    ensures forall i :: 0 <= i < |Copies(Live(Records(log, o, k), n))| ==>
      o < Copies(Live(Records(log, o, k), n))[i].at < EndOf(log, o, k, n)
    decreases Length(log.g) - o
  {
    hide Fits, LogOk, Records, NextAt, NextTxn, Expected, BlockAt;
    if k < n {
      EndLater(log, o, k, n);
      FirstRecord(log, o, k);
      NextLater(log, o);
      SameRecord(log, log', o, k);
      FirstRecord(log', o, k);
      var o', k' := NextAt(log, o), NextTxn(log, o, k);
      TailIrrelevant(log, log', o', k', n);
      EndLater(log, o', k', n);
      var rec := Records(log, o, k)[0];
      DescriptorSpan(log, o, k);
      CopiesHead(rec, Live(Records(log, o', k'), n));
      SpanCopies(rec, o, o');
    } else {
      NoLive(log, o, k, n);
      NoLive(log', o, k, n);
    }
  }

  lemma NoLive(log: Log, o: nat, k: nat, n: nat)
    requires LogOk(log) && Fits(log, o, k) && k >= n
    ensures Live(Records(log, o, k), n) == []
  {
    if Records(log, o, k) != [] {
      FirstRecord(log, o, k);
    }
  }

  lemma DescriptorSpan(log: Log, o: nat, k: nat)
    requires LogOk(log) && Fits(log, o, k) && Records(log, o, k) != []
    ensures var rec := Records(log, o, k)[0];
      rec.Descriptor? ==> rec.at == o && o < Length(log.g) && NextAt(log, o) == o + 1 + |rec.tags|
  {
  }

  lemma SpanCopies(rec: Record, o: nat, o': nat)
    requires rec.Descriptor? ==> rec.at == o && o' == o + 1 + |rec.tags|
    ensures forall i :: 0 <= i < |CopiesOf(rec)| ==> o < CopiesOf(rec)[i].at < o'
  {
    if rec.Descriptor? {
      SpanTags(rec.tags, rec.txn, o + 1);
    }
  }

  lemma {:induction false} SpanTags(tags: seq<Tag>, txn: nat, at: nat)
    ensures |TagCopies(tags, txn, at)| == |tags|
    ensures forall i :: 0 <= i < |tags| ==> TagCopies(tags, txn, at)[i].at == at + i
  {
    if tags != [] {
      SpanTags(tags[1..], txn, at + 1);
    }
  }

  /** Anything behind the last commit record that adds no commit leaves recovery unchanged. */
  lemma UncommittedIgnored(log: Log, log': Log, s: Store)
    requires LogOk(log) && LogOk(log') && log'.g == log.g && log'.start == log.start && log'.id == log.id
    requires Fits(log, 0, 0) && Fits(log', 0, 0) && StoreOk(s)
    requires Commits(Records(log', 0, 0)) == Commits(Records(log, 0, 0))
    requires SameUpTo(log, log', 0, EndOf(log, 0, 0, Commits(Records(log, 0, 0))))
    ensures CopiesOk(log) && CopiesOk(log') && Recovered(log', s) == Recovered(log, s)
  {
    var n := Commits(Records(log, 0, 0));
    hide Fits, LogOk, Records, EndOf, Commits, BlockAt, Replay;
    CopiesAreOk(log);
    CopiesAreOk(log');
    TailIrrelevant(log, log', 0, 0, n);
    SameReplay(log, log', RevokeMap(Committed(log), map[]), Copies(Committed(log)), s);
  }

  lemma {:induction false} SameReplay(log: Log, log': Log, revs: map<nat, nat>, copies: seq<Copy>, s: Store)
    requires LogOk(log) && LogOk(log') && log'.g == log.g && StoreOk(s) && InLog(log, copies) && InLog(log', copies)
    requires forall i :: 0 <= i < |copies| ==> BlockAt(log, copies[i].at) == BlockAt(log', copies[i].at)
    ensures Replay(log, revs, copies, s) == Replay(log', revs, copies, s)
  {
    if copies != [] {
      var c := copies[0];
      SameReplay(log, log', revs, copies[1..],
                 if Skipped(revs, c) then s else WriteHome(s, c.block, BlockAt(log, c.at), c.escape));
    }
  }
}
