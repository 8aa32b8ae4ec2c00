/**
 * What a journal says: the records found by following the ring from its start, the copies
 * and revocations they contain, and what replaying the committed ones must leave on disk.
 */
module JbdLog {
  import opened JbdFormat

  // ----- the ring -----

  function Wrap(g: Geometry, x: nat): nat
    requires g.first <= g.maxlen
  {
    if x >= g.maxlen then x - (g.maxlen - g.first) else x
  }

  /** The block `o` places after `start` on the ring. */
  function At(g: Geometry, start: nat, o: nat): nat
    requires g.first <= g.maxlen
  {
    Wrap(g, start + o)
  }

  /** A journal as recovery finds it: the ring, the block to start at and the first id expected. */
  datatype Log = Log(g: Geometry, ring: seq<Block>, start: nat, id: Word)

  ghost predicate LogOk(log: Log) {
    GeometryOk(log.g) && RingOk(log.g, log.ring) && log.g.first <= log.start < log.g.maxlen
  }

  /** The id of the transaction `k` places after the first one. */
  function Id(first: Word, k: nat): Word {
    (first + k) % WORD_LIMIT
  }

  /** Signed 32-bit difference of two ids. */
  function IdDiff(x: Word, y: Word): int {
    var d := (x - y) % WORD_LIMIT;
    if d < 0x8000_0000 then d else d - WORD_LIMIT
  }

  lemma IdDiffIs(first: Word, k: nat, n: nat)
    requires k < n + 0x8000_0000 && n <= k + 0x8000_0000
    ensures IdDiff(Id(first, k), Id(first, n)) == k - n
  {
    var x: int, y: int := Id(first, k), Id(first, n);
    var qx, qy := (first + k) / WORD_LIMIT, (first + n) / WORD_LIMIT;
    assert first + k == qx * WORD_LIMIT + x && first + n == qy * WORD_LIMIT + y;
    assert x - y == (k - n) + (qy - qx) * WORD_LIMIT;
    Residue(k - n, qy - qx);
  }

  lemma Residue(a: int, q: int)
    ensures (a + q * WORD_LIMIT) % WORD_LIMIT == a % WORD_LIMIT
  {
  }

  function BlockAt(log: Log, o: nat): Block
    requires LogOk(log) && o <= Length(log.g)
  {
    log.ring[At(log.g, log.start, o)]
  }

  // ----- records -----

  /** A record with the number of its transaction and, for a descriptor, its place. */
  datatype Record =
    | Descriptor(txn: nat, at: nat, tags: seq<Tag>)
    | Revocation(txn: nat, blocks: seq<nat>)
    | Commit(txn: nat)

  /** A block that continues the log in transaction `k`. */
  predicate Expected(log: Log, b: Block, k: nat) {
    |b| >= 3 && b[0] == MAGIC && b[2] == Id(log.id, k)
  }

  /** From offset `o` on, no record reaches over the start of the ring or over its own block. */
  ghost predicate Fits(log: Log, o: nat, k: nat)
    requires LogOk(log)
    decreases Length(log.g) - o
  {
    && o <= Length(log.g)
    && (o < Length(log.g) ==>
          var b := BlockAt(log, o);
          Expected(log, b, k) ==>
            if b[1] == DESCRIPTOR then Fits(log, o + 1 + |TableOf(log.g, b)|, k)
            else if b[1] == COMMIT then Fits(log, o + 1, k + 1)
            else b[1] == REVOKE ==> CountOk(b) && Fits(log, o + 1, k))
  }

  /** The records from offset `o` on, the first of them in transaction `k`. */
  ghost function Records(log: Log, o: nat, k: nat): seq<Record>
    requires LogOk(log) && Fits(log, o, k)
    decreases Length(log.g) - o
  {
    if o == Length(log.g) then []
    else
      var b := BlockAt(log, o);
      if !Expected(log, b, k) then []
      else if b[1] == DESCRIPTOR then
        [Descriptor(k, o, TableOf(log.g, b))] + Records(log, o + 1 + |TableOf(log.g, b)|, k)
      else if b[1] == COMMIT then [Commit(k)] + Records(log, o + 1, k + 1)
      else if b[1] == REVOKE then [Revocation(k, Revokes(log.g, b))] + Records(log, o + 1, k)
      else []
  }

  /** Where the record after the one at offset `o` begins, and its transaction. */
  function NextAt(log: Log, o: nat): nat
    requires LogOk(log) && o <= Length(log.g)
  {
    var b := BlockAt(log, o);
    o + 1 + if b[1] == DESCRIPTOR then |TableOf(log.g, b)| else 0
  }

  function NextTxn(log: Log, o: nat, k: nat): nat
    requires LogOk(log) && o <= Length(log.g)
  {
    if BlockAt(log, o)[1] == COMMIT then k + 1 else k
  }

  lemma FirstRecord(log: Log, o: nat, k: nat)
    requires LogOk(log) && Fits(log, o, k) && Records(log, o, k) != []
    ensures o < Length(log.g) && Fits(log, NextAt(log, o), NextTxn(log, o, k))
    ensures Records(log, o, k)[0].txn == k
    ensures Records(log, o, k)[0].Commit? <==> NextTxn(log, o, k) == k + 1
    ensures Records(log, o, k)[1..] == Records(log, NextAt(log, o), NextTxn(log, o, k))
  {
  }

  ghost function Commits(recs: seq<Record>): nat {
    if recs == [] then 0 else (if recs[0].Commit? then 1 else 0) + Commits(recs[1..])
  }

  /** The records before the first one of transaction `n`. */
  ghost function Live(recs: seq<Record>, n: nat): seq<Record> {
    if recs == [] || recs[0].txn >= n then [] else [recs[0]] + Live(recs[1..], n)
  }

  /** The records of all committed transactions. */
  ghost function Committed(log: Log): seq<Record>
    requires LogOk(log) && Fits(log, 0, 0)
  {
    Live(Records(log, 0, 0), Commits(Records(log, 0, 0)))
  }

  // ----- what committed means -----

  lemma {:induction false} RecordTxn(log: Log, o: nat, k: nat, i: nat)
    requires LogOk(log) && Fits(log, o, k) && i < |Records(log, o, k)|
    ensures k <= Records(log, o, k)[i].txn <= k + Commits(Records(log, o, k))
    ensures Records(log, o, k)[i].Commit? ==> Records(log, o, k)[i].txn < k + Commits(Records(log, o, k))
    decreases Length(log.g) - o
  {
    hide Records, Fits, LogOk, NextAt, NextTxn;
    FirstRecord(log, o, k);
    NextLater(log, o);
    if i > 0 {
      RecordTxn(log, NextAt(log, o), NextTxn(log, o, k), i - 1);
    }
  }

  lemma NextLater(log: Log, o: nat)
    requires LogOk(log) && o <= Length(log.g)
    ensures o < NextAt(log, o) && forall k: nat :: k <= NextTxn(log, o, k) <= k + 1
  {
  }

  lemma {:induction false} CommitFound(log: Log, o: nat, k: nat, n: nat)
    requires LogOk(log) && Fits(log, o, k) && k <= n < k + Commits(Records(log, o, k))
    ensures Commit(n) in Records(log, o, k)
    decreases Length(log.g) - o
  {
    hide Records, Fits, LogOk, NextAt, NextTxn;
    FirstRecord(log, o, k);
    NextLater(log, o);
    var recs := Records(log, o, k);
    if recs[0] != Commit(n) {
      CommitFound(log, NextAt(log, o), NextTxn(log, o, k), n);
      assert recs == [recs[0]] + recs[1..];
    }
  }

  lemma {:induction false} LiveIs(log: Log, o: nat, k: nat, n: nat, i: nat)
    requires LogOk(log) && Fits(log, o, k) && i < |Records(log, o, k)|
    ensures var recs := Records(log, o, k);
      recs[i].txn < n <==> i < |Live(recs, n)| && Live(recs, n)[i] == recs[i]
    decreases Length(log.g) - o
  {
    hide Records, Fits, LogOk, NextAt, NextTxn;
    FirstRecord(log, o, k);
    NextLater(log, o);
    RecordTxn(log, o, k, i);
    if i > 0 && Records(log, o, k)[0].txn < n {
      LiveIs(log, NextAt(log, o), NextTxn(log, o, k), n, i - 1);
    }
  }

  /** A record takes part in recovery exactly if its transaction has a commit record. */
  lemma CommittedIs(log: Log, i: nat)
    requires LogOk(log) && Fits(log, 0, 0) && i < |Records(log, 0, 0)|
    ensures var recs := Records(log, 0, 0);
      (i < |Committed(log)| && Committed(log)[i] == recs[i]) <==> Commit(recs[i].txn) in recs
    ensures |Committed(log)| <= |Records(log, 0, 0)|
  {
    var recs := Records(log, 0, 0);
    var n := Commits(recs);
    LiveIs(log, 0, 0, n, i);
    LivePrefix(recs, n);
    if recs[i].txn < n {
      CommitFound(log, 0, 0, recs[i].txn);
    }
    if Commit(recs[i].txn) in recs {
      var j :| 0 <= j < |recs| && recs[j] == Commit(recs[i].txn);
      RecordTxn(log, 0, 0, j);
    }
  }

  // ----- copies and revocations -----

  /** A logged copy of home block `block`, stored at offset `at`. */
  datatype Copy = Copy(txn: nat, at: nat, block: nat, escape: bool)

  ghost function TagCopies(tags: seq<Tag>, txn: nat, at: nat): seq<Copy> {
    if tags == [] then []
    else [Copy(txn, at, tags[0].block, tags[0].escape)] + TagCopies(tags[1..], txn, at + 1)
  }

  ghost function CopiesOf(rec: Record): seq<Copy> {
    if rec.Descriptor? then TagCopies(rec.tags, rec.txn, rec.at + 1) else []
  }

  /** All logged copies, in log order. */
  ghost function Copies(recs: seq<Record>): seq<Copy> {
    if recs == [] then [] else CopiesOf(recs[0]) + Copies(recs[1..])
  }

  /** Some record revokes the block in the copy's own transaction or in a later one. */
  ghost predicate Cancelled(recs: seq<Record>, c: Copy) {
    exists i :: 0 <= i < |recs| && recs[i].Revocation? && c.block in recs[i].blocks && c.txn <= recs[i].txn
  }

  /** The latest revocation of each block, added to those in `m`. */
  ghost function RevokeMap(recs: seq<Record>, m: map<nat, nat>): map<nat, nat> {
    if recs == [] then m
    else RevokeMap(recs[1..], if recs[0].Revocation? then m + AllTo(recs[0].blocks, recs[0].txn) else m)
  }

  ghost function AllTo(blocks: seq<nat>, txn: nat): map<nat, nat> {
    map b | b in blocks :: txn
  }

  ghost predicate Skipped(revs: map<nat, nat>, c: Copy) {
    c.block in revs && c.txn <= revs[c.block]
  }

  ghost predicate Ordered(recs: seq<Record>) {
    forall i, j :: 0 <= i < j < |recs| ==> recs[i].txn <= recs[j].txn
  }

  /** Looking a copy up in the latest revocations is the same as looking through all of them. */
  lemma {:induction false} SkippedIs(recs: seq<Record>, m: map<nat, nat>, c: Copy)
    requires Ordered(recs)
    requires forall b, i :: b in m && 0 <= i < |recs| ==> m[b] <= recs[i].txn
    ensures Skipped(RevokeMap(recs, m), c) <==> Skipped(m, c) || Cancelled(recs, c)
  {
    if recs != [] {
      var rest := recs[1..];
      var m' := if recs[0].Revocation? then m + AllTo(recs[0].blocks, recs[0].txn) else m;
      forall b, i | b in m' && 0 <= i < |rest| ensures m'[b] <= rest[i].txn {
        assert rest[i] == recs[i + 1];
      }
      SkippedIs(rest, m', c);
      assert Cancelled(recs, c) <==>
        (recs[0].Revocation? && c.block in recs[0].blocks && c.txn <= recs[0].txn) || Cancelled(rest, c) by {
        if Cancelled(recs, c) {
          var i :| 0 <= i < |recs| && recs[i].Revocation? && c.block in recs[i].blocks && c.txn <= recs[i].txn;
          assert i > 0 ==> rest[i - 1] == recs[i];
        }
        if Cancelled(rest, c) {
          var i :| 0 <= i < |rest| && rest[i].Revocation? && c.block in rest[i].blocks && c.txn <= rest[i].txn;
          assert recs[i + 1] == rest[i];
        }
      }
    }
  }

  lemma {:induction false} RecordsOrdered(log: Log, o: nat, k: nat)
    requires LogOk(log) && Fits(log, o, k)
    ensures Ordered(Records(log, o, k))
    decreases Length(log.g) - o
  {
    hide Records, Fits, LogOk, NextAt, NextTxn;
    var recs := Records(log, o, k);
    if recs != [] {
      FirstRecord(log, o, k);
      NextLater(log, o);
      RecordsOrdered(log, NextAt(log, o), NextTxn(log, o, k));
      forall i, j | 0 <= i < j < |recs| ensures recs[i].txn <= recs[j].txn {
        RecordTxn(log, o, k, j);
        if i > 0 {
          assert recs[i] == recs[1..][i - 1] && recs[j] == recs[1..][j - 1];
        }
      }
    }
  }

  lemma CommittedOrdered(log: Log)
    requires LogOk(log) && Fits(log, 0, 0)
    ensures Ordered(Committed(log))
  {
    RecordsOrdered(log, 0, 0);
    var recs, live := Records(log, 0, 0), Committed(log);
    LivePrefix(recs, Commits(recs));
  }

  lemma {:induction false} LivePrefix(recs: seq<Record>, n: nat)
    ensures |Live(recs, n)| <= |recs|
    ensures forall i :: 0 <= i < |Live(recs, n)| ==> Live(recs, n)[i] == recs[i]
  {
    if recs != [] && recs[0].txn < n {
      LivePrefix(recs[1..], n);
    }
  }

  // ----- the home blocks -----

  /** Home blocks, the ext4 superblock on disk and the one in memory (256 words each). */
  datatype Store = Store(blocks: map<nat, Block>, super: Block, mem: Block)

  ghost predicate StoreOk(s: Store) {
    |s.mem| == 256
  }

  function Unescape(data: Block, escape: bool): Block {
    if escape && data != [] then data[0 := MAGIC] else data
  }

  /** A superblock from the log keeps the mount state of the running system. */
  function WithState(part: Block, mem: Block): (r: Block)
    requires |part| == 256 == |mem|
    ensures |r| == 256
  {
    part[14 := part[14] / HALF * HALF + mem[14] % HALF]
  }

  function WithMountCount(part: Block, mem: Block): (r: Block)
    requires |part| == 256 == |mem|
    ensures |r| == 256
  {
    part[13 := mem[13] / HALF * HALF + part[13] % HALF]
  }

  /** Put a logged copy of block `block` back in place. */
  function WriteHome(s: Store, block: nat, data: Block, escape: bool): Store
    requires |s.mem| == 256
  {
    if block != 0 then s.(blocks := s.blocks[block := Unescape(data, escape)])
    else if |data| < 512 then s
    else
      var part := WithState(data[256..512], s.mem);
      s.(super := part, mem := WithMountCount(part, s.mem))
  }

  ghost function Replay(log: Log, revs: map<nat, nat>, copies: seq<Copy>, s: Store): Store
    requires LogOk(log) && StoreOk(s) && InLog(log, copies)
  {
    if copies == [] then s
    else
      var c := copies[0];
      assert InLog(log, copies[1..]);
      Replay(log, revs, copies[1..],
             if Skipped(revs, c) then s else WriteHome(s, c.block, BlockAt(log, c.at), c.escape))
  }

  ghost predicate InLog(log: Log, copies: seq<Copy>)
    requires LogOk(log)
  {
    forall i :: 0 <= i < |copies| ==> copies[i].at <= Length(log.g)
  }

  lemma {:induction false} ReplayAppend(log: Log, revs: map<nat, nat>, a: seq<Copy>, b: seq<Copy>, s: Store)
    requires LogOk(log) && StoreOk(s) && InLog(log, a) && InLog(log, b)
    ensures InLog(log, a + b) && StoreOk(Replay(log, revs, a, s))
    ensures Replay(log, revs, a + b, s) == Replay(log, revs, b, Replay(log, revs, a, s))
  {
    if a == [] {
      assert a + b == b;
    } else {
      var c := a[0];
      assert (a + b)[1..] == a[1..] + b;
      ReplayAppend(log, revs, a[1..], b,
                   if Skipped(revs, c) then s else WriteHome(s, c.block, BlockAt(log, c.at), c.escape));
    }
  }

  /** Copy `i` is the last one of its block that is replayed. */
  ghost predicate LastCopy(revs: map<nat, nat>, copies: seq<Copy>, i: nat) {
    && i < |copies| && !Skipped(revs, copies[i])
    && forall j :: i < j < |copies| && copies[j].block == copies[i].block ==> Skipped(revs, copies[j])
  }

  lemma {:induction false} ReplayUntouched(log: Log, revs: map<nat, nat>, copies: seq<Copy>, s: Store, b: nat)
    requires LogOk(log) && StoreOk(s) && InLog(log, copies) && b != 0
    requires forall i :: 0 <= i < |copies| && copies[i].block == b ==> Skipped(revs, copies[i])
    ensures var s' := Replay(log, revs, copies, s);
      (b in s'.blocks <==> b in s.blocks) && (b in s.blocks ==> s'.blocks[b] == s.blocks[b])
  {
    if copies != [] {
      var c := copies[0];
      ReplayUntouched(log, revs, copies[1..],
                      if Skipped(revs, c) then s else WriteHome(s, c.block, BlockAt(log, c.at), c.escape), b);
    }
  }

  lemma {:induction false} ReplayLast(log: Log, revs: map<nat, nat>, copies: seq<Copy>, s: Store, i: nat)
    requires LogOk(log) && StoreOk(s) && InLog(log, copies) && LastCopy(revs, copies, i) && copies[i].block != 0
    ensures var s' := Replay(log, revs, copies, s);
      var c := copies[i];
      c.block in s'.blocks && s'.blocks[c.block] == Unescape(BlockAt(log, c.at), c.escape)
  {
    var c := copies[0];
    var s1 := if Skipped(revs, c) then s else WriteHome(s, c.block, BlockAt(log, c.at), c.escape);
    if i == 0 {
      forall j | 0 <= j < |copies[1..]| && copies[1..][j].block == c.block ensures Skipped(revs, copies[1..][j]) {
        assert copies[1..][j] == copies[j + 1];
      }
      ReplayUntouched(log, revs, copies[1..], s1, c.block);
    } else {
      assert LastCopy(revs, copies[1..], i - 1);
      ReplayLast(log, revs, copies[1..], s1, i - 1);
    }
  }
}
