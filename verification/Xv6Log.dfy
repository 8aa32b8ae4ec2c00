/** The xv6 log: operations share one transaction, which is committed when none of them is active. */
module Xv6Log {
  import opened Xv6Disk
  import opened Xv6Counts

  class LogDevice {
    const l: Layout
    var disk: Disk
    /** Contents of buffers that are pinned in the cache. */
    var cache: map<nat, Block>
    /** Block numbers in the in-memory header. */
    var lh: seq<nat>
    var outstanding: int
    var committing: bool
    /** How many blocks each active operation has added. */
    ghost var ops: seq<nat>
    /** The disk after each block write of the current commit or recovery. */
    ghost var trace: seq<Disk>

    ghost predicate Valid()
      reads this
    {
      && Loggable(l, lh) && Cached(l, lh, cache) && HeadIs(l, disk, [])
      && outstanding == |ops| && (committing ==> outstanding == 0)
      && CountsOk(Counted())
    }

    ghost function Counted(): Counts
      reads this
    {
      Counts(|lh|, ops)
    }

    constructor (l: Layout, disk: Disk, ghost blocks: seq<nat>)
      requires HeadIs(l, disk, blocks)
      ensures Valid() && fresh(this) && lh == [] && outstanding == 0 && !committing
      ensures this.l == l && Home(l, this.disk) == Outcome(l, disk, blocks)
      ensures trace == RecoverTrace(l, disk, blocks)
    {
      this.l, this.disk := l, disk;
      cache, lh, outstanding, committing, ops := map[], [], 0, false, [];
      new;
      RecoverFromLog(blocks);
    }

    method WriteBlock(a: nat, b: Block)
      modifies this`disk, this`trace
      ensures disk == old(disk)[a := b] && trace == old(trace) + [disk]
    {
      disk := disk[a := b];
      trace := trace + [disk];
    }

    /** Copy the logged blocks from their log places to their home places. */
    method InstallTrans()
      requires DiskOk(l, disk) && Loggable(l, lh) && trace != [] && trace[|trace| - 1] == disk
      modifies this`disk, this`trace
      ensures disk == Installed(l, old(disk), lh, |lh|)
      ensures trace == old(trace)[..old(|trace|) - 1] + InstallStates(l, old(disk), lh, |lh|)
    {
      var tail := 0;
      ghost var pre := trace[..|trace| - 1];
      assert trace == pre + [disk];
      while tail < |lh|
        invariant tail <= |lh| && disk == Installed(l, old(disk), lh, tail)
        invariant trace == pre + InstallStates(l, old(disk), lh, tail)
      {
        InstalledAt(l, old(disk), lh, tail, l.start + tail + 1);
        assert InLog(l, l.start + tail + 1);
        var b := disk[l.start + tail + 1];
        WriteBlock(lh[tail], b);
        tail := tail + 1;
      }
    }

    method WriteHead()
      requires DiskOk(l, disk) && |lh| <= LOGSIZE
      modifies this`disk, this`trace
      ensures disk == Headed(l, old(disk), lh) && trace == old(trace) + [disk]
    {
      assert InLog(l, l.start);
      WriteBlock(l.start, WithHead(disk[l.start], lh));
    }

    /** Copy the modified blocks from the cache into the log. */
    method WriteLog()
      requires DiskOk(l, disk) && Loggable(l, lh) && Cached(l, lh, cache) && trace != [] && trace[|trace| - 1] == disk
      modifies this`disk, this`trace
      ensures disk == Logged(l, old(disk), lh, cache, |lh|)
      ensures trace == old(trace)[..old(|trace|) - 1] + LogStates(l, old(disk), lh, cache, |lh|)
    {
      var tail := 0;
      ghost var pre := trace[..|trace| - 1];
      assert trace == pre + [disk];
      while tail < |lh|
        invariant tail <= |lh| && disk == Logged(l, old(disk), lh, cache, tail)
        invariant trace == pre + LogStates(l, old(disk), lh, cache, tail)
      {
        WriteBlock(l.start + tail + 1, cache[lh[tail]]);
        tail := tail + 1;
      }
    }

    /** Read the header and bring the home blocks up to date. */
    method RecoverFromLog(ghost blocks: seq<nat>)
      requires HeadIs(l, disk, blocks)
      modifies this`disk, this`trace, this`lh
      ensures lh == [] && HeadIs(l, disk, []) && Home(l, disk) == Outcome(l, old(disk), blocks)
      ensures trace == RecoverTrace(l, old(disk), blocks)
    {
      trace := [disk];
      assert InLog(l, l.start);
      var n := disk[l.start][0];
      var i := 0;
      lh := [];
      while i < n
        invariant 0 <= i <= n == |blocks| && lh == blocks[..i] && disk == old(disk) && trace == [disk]
      {
        lh := lh + [Listed(disk[l.start])[i]];
        i := i + 1;
      }
      assert lh == blocks;
      InstallAndClear(blocks);
    }

    /** Write the transaction to the log, mark it committed, install it and mark the log empty. */
    method Commit()
      requires Valid() && committing
      modifies this`disk, this`trace, this`lh
      ensures Valid() && lh == [] && Counted() == Next(old(Counted()), Call.Commit)
      ensures Home(l, disk) == Updated(old(Home(l, disk)), old(lh), old(cache))
      ensures old(lh) != [] ==> trace == CommitTrace(l, old(disk), old(lh), old(cache))
      ensures old(lh) == [] ==> disk == old(disk)
    {
      ghost var d, blocks := disk, lh;
      if |lh| > 0 {
        trace := [disk];
        WriteLog();
        LoggedAt(l, d, blocks, cache, |blocks|, 0);
        LogStateAt(l, d, blocks, cache, |blocks|, |blocks|);
        ghost var d1 := disk;
        WriteHead();
        CommitPoint(l, d, blocks, cache);
        ghost var before := trace[..|trace| - 1];
        assert before == LogStates(l, d, blocks, cache, |blocks|);
        InstallAndClear(blocks);
      } else {
        assert Updated(Home(l, d), [], cache) == Home(l, d);
      }
    }

    /** Install the blocks in the header, then mark the log empty. */
    method InstallAndClear(ghost blocks: seq<nat>)
      requires HeadIs(l, disk, blocks) && lh == blocks && trace != [] && trace[|trace| - 1] == disk
      modifies this`disk, this`trace, this`lh
      ensures lh == [] && HeadIs(l, disk, []) && Home(l, disk) == Outcome(l, old(disk), blocks)
      ensures trace == old(trace)[..old(|trace|) - 1] + RecoverTrace(l, old(disk), blocks)
    {
      InstallTrans();
      ghost var e := disk;
      InstalledAt(l, old(disk), blocks, |blocks|, 0);
      lh := [];
      WriteHead();
      ClearedIs(l, e);
    }

    // ----- operations -----

    /** An operation starts, unless it has to wait for a commit. */
    method BeginOp() returns (started: bool)
      requires Valid()
      modifies this`outstanding, this`ops
      ensures Valid() && (started <==> !committing && MayBegin(old(Counted())))
      ensures Counted() == if started then Next(old(Counted()), Begin) else old(Counted())
    {
      if committing {
        return false;
      } else if |lh| + (outstanding + 1) * MAXOPBLOCKS > LOGSIZE {
        return false;
      } else {
        NextOk(Counted(), Begin);
        outstanding := outstanding + 1;
        ops := ops + [0];
        return true;
      }
    }

    /**
     * Operation `k` has modified block `b` in the cache.  The call panics when the log is full, even
     * for a block that is in the log already.
     */
    method LogWrite(k: nat, b: nat, data: Block) returns (panic: bool)
      requires Valid() && k < |ops| && !InLog(l, b) && |data| == l.words
      requires b in lh || ops[k] < MAXOPBLOCKS
      modifies this`lh, this`cache, this`ops
      ensures Valid() && !committing
      ensures panic <==> old(|lh|) >= LOGSIZE || old(|lh|) >= l.size - 1
      ensures panic <==> Full(old(Counted()), l.size)
      ensures l.size > LOGSIZE && old(ops)[k] < MAXOPBLOCKS ==> !panic
      ensures !panic ==> Counted() == Next(old(Counted()), Write(k, b !in old(lh)))
      ensures panic ==> lh == old(lh) && cache == old(cache) && ops == old(ops)
      ensures !panic ==>
        && cache == old(cache)[b := data]
        && lh == if b in old(lh) then old(lh) else old(lh) + [b]
    {
      HasReserve(ops, k);
      if |lh| >= LOGSIZE || |lh| >= l.size - 1 {
        return true;
      }
      if outstanding < 1 {
        return true;
      }
      var i := 0;
      while i < |lh|
        invariant i <= |lh| && b !in lh[..i] && lh == old(lh)
      {
        if lh[i] == b {
          break;
        }
        i := i + 1;
      }
      cache := cache[b := data];
      if i == |lh| {
        assert b !in lh;
        NextOk(Counted(), Write(k, true));
        lh := lh + [b];
        ops := ops[k := ops[k] + 1];
      }
      panic := false;
    }

    /** Operation `k` ends; the last one has to commit. */
    method EndOp(k: nat) returns (doCommit: bool, panic: bool)
      requires Valid() && k < |ops|
      modifies this`outstanding, this`committing, this`ops
      ensures Valid() && !panic
      ensures Counted() == Next(old(Counted()), End(k))
      ensures doCommit == committing == (|old(ops)| == 1)
    {
      NextOk(Counted(), End(k));
      outstanding := outstanding - 1;
      panic := committing;
      ops := ops[..k] + ops[k + 1..];
      doCommit := false;
      if outstanding == 0 {
        doCommit := true;
        committing := true;
      }
    }

    /** The commit is over; operations may start again. */
    method EndCommit()
      requires Valid() && committing && lh == []
      modifies this`committing
      ensures Valid() && !committing
    {
      committing := false;
    }
  }

  ghost function Numbers(base: nat, n: nat): seq<nat> {
    seq(n, i => base + i)
  }

  lemma NumbersStart(base: nat)
    ensures Numbers(base, 0) == []
  {
  }

  lemma NumbersStep(base: nat, n: nat)
    ensures base + n !in Numbers(base, n) && Numbers(base, n) + [base + n] == Numbers(base, n + 1)
    ensures |Numbers(base, n)| == n && (n > 0 ==> base in Numbers(base, n))
  {
    assert n > 0 ==> Numbers(base, n)[0] == base;
  }

  /** Three operations begin and add `m` new blocks, each of them its share before the next one. */
  method FillLog(d: LogDevice, base: nat, data: Block, m: nat)
    requires d.Valid() && d.lh == [] && d.ops == [] && !d.committing && m <= LOGSIZE && m < d.l.size
    requires base >= d.l.start + d.l.size && |data| == d.l.words
    modifies d
    ensures d.Valid() && !d.committing && d.lh == Numbers(base, m) && d.ops == Shares(m)
  {
    hide Loggable, Cached, HeadIs, Reserved, Shares, Numbers, CountsOk;
    ShareStep(0);
    var s0 := d.BeginOp();
    var s1 := d.BeginOp();
    var s2 := d.BeginOp();
    var n := 0;
    NumbersStart(base);
    while n < m
      invariant n <= m && d.Valid() && !d.committing
      invariant d.ops == Shares(n) && d.lh == Numbers(base, n)
    {
      var k := n / MAXOPBLOCKS;
      ShareStep(n);
      NumbersStep(base, n);
      var p := d.LogWrite(k, base + n, data);
      n := n + 1;
    }
  }

  /**
   * Three operations fill the log, each with blocks of its share; then one of them writes a block
   * again that is logged already, and the call panics.
   */
  method AbsorbingWritePanics(d: LogDevice, base: nat, data: Block) returns (panic: bool)
    requires d.Valid() && d.lh == [] && d.ops == [] && !d.committing && d.l.size > 1
    requires base >= d.l.start + d.l.size && |data| == d.l.words
    modifies d
    ensures d.Valid() && base in d.lh && |d.ops| == 3 && panic
  {
    hide Loggable, Cached, HeadIs, Reserved, Numbers, CountsOk;
    var m := if d.l.size > LOGSIZE then LOGSIZE else d.l.size - 1;
    FillLog(d, base, data, m);
    NumbersStep(base, m);
    panic := d.LogWrite(0, base, data);
  }

  /** In a log of at most LOGSIZE blocks, an operation that has not used up its share can panic. */
  method ShareWritePanics(d: LogDevice, base: nat, data: Block) returns (k: nat, panic: bool)
    requires d.Valid() && d.lh == [] && d.ops == [] && !d.committing && d.l.size <= LOGSIZE
    requires base >= d.l.start + d.l.size && |data| == d.l.words
    modifies d
    ensures d.Valid() && k < |d.ops| && d.ops[k] < MAXOPBLOCKS && panic
  {
    hide Loggable, Cached, Reserved, Numbers, CountsOk;
    var m := d.l.size - 1;
    FillLog(d, base, data, m);
    ShareStep(m);
    NumbersStep(base, m);
    k := m / MAXOPBLOCKS;
    panic := d.LogWrite(k, base + m, data);
  }
}
