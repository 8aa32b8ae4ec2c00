/** The bookkeeping of the xv6 log: how many blocks are logged and how many each active operation has added. */
module Xv6Counts {
  import opened Xv6Disk

  /** What the active operations may still add, `MAXOPBLOCKS` each at the beginning. */
  ghost function Reserved(ops: seq<nat>): nat
    requires forall i :: 0 <= i < |ops| ==> ops[i] <= MAXOPBLOCKS
  {
    if ops == [] then 0 else (MAXOPBLOCKS - ops[0]) + Reserved(ops[1..])
  }

  lemma {:induction false} ReservedBound(ops: seq<nat>)
    requires forall i :: 0 <= i < |ops| ==> ops[i] <= MAXOPBLOCKS
    ensures Reserved(ops) <= |ops| * MAXOPBLOCKS
  {
    if ops != [] {
      ReservedBound(ops[1..]);
    }
  }

  lemma {:induction false} ReservedAppend(ops: seq<nat>)
    requires forall i :: 0 <= i < |ops| ==> ops[i] <= MAXOPBLOCKS
    ensures Reserved(ops + [0]) == Reserved(ops) + MAXOPBLOCKS
  {
    if ops == [] {
      assert (ops + [0])[1..] == [];
    } else {
      ReservedAppend(ops[1..]);
      assert (ops + [0])[1..] == ops[1..] + [0];
    }
  }

  lemma {:induction false} ReservedUse(ops: seq<nat>, k: nat)
    requires (forall i :: 0 <= i < |ops| ==> ops[i] <= MAXOPBLOCKS) && k < |ops| && ops[k] < MAXOPBLOCKS
    ensures Reserved(ops[k := ops[k] + 1]) == Reserved(ops) - 1
  {
    var ops' := ops[k := ops[k] + 1];
    if k == 0 {
      assert ops'[1..] == ops[1..];
    } else {
      ReservedUse(ops[1..], k - 1);
      assert ops'[1..] == ops[1..][k - 1 := ops[k] + 1];
    }
  }

  lemma {:induction false} ReservedDrop(ops: seq<nat>, k: nat)
    requires (forall i :: 0 <= i < |ops| ==> ops[i] <= MAXOPBLOCKS) && k < |ops|
    ensures Reserved(ops[..k] + ops[k + 1..]) == Reserved(ops) - (MAXOPBLOCKS - ops[k])
  {
    var ops' := ops[..k] + ops[k + 1..];
    if k == 0 {
      assert ops' == ops[1..];
    } else {
      ReservedDrop(ops[1..], k - 1);
      assert ops'[1..] == ops[1..][..k - 1] + ops[1..][k..];
    }
  }

  lemma {:induction false} HasReserve(ops: seq<nat>, k: nat)
    requires (forall i :: 0 <= i < |ops| ==> ops[i] <= MAXOPBLOCKS) && k < |ops|
    ensures Reserved(ops) >= MAXOPBLOCKS - ops[k]
  {
    if k > 0 {
      HasReserve(ops[1..], k - 1);
    }
  }

  // ----- sequences of calls -----

  datatype Counts = Counts(n: nat, ops: seq<nat>)

  /** A write is of a new block or of one that is logged already; a commit comes after the last end. */
  datatype Call = Begin | Write(op: nat, isNew: bool) | End(op: nat) | Commit

  const Start := Counts(0, [])

  /** The test that makes a write panic. */
  predicate Full(c: Counts, size: nat) {
    c.n >= LOGSIZE || c.n + 1 >= size
  }

  predicate MayBegin(c: Counts) {
    c.n + (|c.ops| + 1) * MAXOPBLOCKS <= LOGSIZE
  }

  predicate Allowed(c: Counts, x: Call) {
    match x
    case Begin => MayBegin(c)
    case Write(op, isNew) => op < |c.ops| && (isNew ==> c.ops[op] < MAXOPBLOCKS)
    case End(op) => op < |c.ops|
    case Commit => c.ops == []
  }

  function Next(c: Counts, x: Call): Counts
    requires Allowed(c, x)
  {
    match x
    case Begin => c.(ops := c.ops + [0])
    case Write(op, isNew) => if isNew then Counts(c.n + 1, c.ops[op := c.ops[op] + 1]) else c
    case End(op) => c.(ops := c.ops[..op] + c.ops[op + 1..])
    case Commit => c.(n := 0)
  }

  /** Everything that is logged or may still be added has room. */
  ghost predicate CountsOk(c: Counts) {
    (forall i :: 0 <= i < |c.ops| ==> c.ops[i] <= MAXOPBLOCKS) && c.n + Reserved(c.ops) <= LOGSIZE
  }

  lemma NextOk(c: Counts, x: Call)
    requires CountsOk(c) && Allowed(c, x)
    ensures CountsOk(Next(c, x))
  {
    match x
    case Begin =>
      ReservedBound(c.ops);
      ReservedAppend(c.ops);
    case Write(op, isNew) =>
      if isNew {
        ReservedUse(c.ops, op);
      }
    case End(op) => ReservedDrop(c.ops, op);
    case Commit =>
  }

  /** A sequence of calls none of which panics. */
  predicate Runs(c: Counts, calls: seq<Call>, size: nat)
    decreases |calls|
  {
    calls != [] ==>
      && Allowed(c, calls[0]) && (calls[0].Write? ==> !Full(c, size))
      && Runs(Next(c, calls[0]), calls[1..], size)
  }

  function Ends(c: Counts, calls: seq<Call>, size: nat): Counts
    requires Runs(c, calls, size)
    decreases |calls|
  {
    if calls == [] then c else Ends(Next(c, calls[0]), calls[1..], size)
  }

  lemma {:induction false} RunsOk(c: Counts, calls: seq<Call>, size: nat)
    requires CountsOk(c) && Runs(c, calls, size)
    ensures CountsOk(Ends(c, calls, size))
    decreases |calls|
  {
    if calls != [] {
      NextOk(c, calls[0]);
      RunsOk(Next(c, calls[0]), calls[1..], size);
    }
  }

  lemma {:induction false} RunsMore(c: Counts, calls: seq<Call>, size: nat, x: Call)
    requires Runs(c, calls, size)
    requires var e := Ends(c, calls, size); Allowed(e, x) && (x.Write? ==> !Full(e, size))
    ensures Runs(c, calls + [x], size) && Ends(c, calls + [x], size) == Next(Ends(c, calls, size), x)
    decreases |calls|
  {
    if calls == [] {
      assert calls + [x] == [x] && [x][1..] == [];
    } else {
      RunsMore(Next(c, calls[0]), calls[1..], size, x);
      assert (calls + [x])[1..] == calls[1..] + [x];
    }
  }

  /** An operation within its share never finds the log full, whatever was called before. */
  ghost predicate ShareSafe(size: nat) {
    forall calls, op :: Runs(Start, calls, size) && Allowed(Ends(Start, calls, size), Write(op, true)) ==>
      !Full(Ends(Start, calls, size), size)
  }

  /** How many blocks operation `k` has added after `n` new blocks, each operation adding ten of them in turn. */
  function Share(n: nat, k: nat): nat {
    if n <= k * MAXOPBLOCKS then 0 else if n <= (k + 1) * MAXOPBLOCKS then n - k * MAXOPBLOCKS else MAXOPBLOCKS
  }

  function Shares(n: nat): seq<nat> {
    [Share(n, 0), Share(n, 1), Share(n, 2)]
  }

  lemma ShareStep(n: nat)
    requires n < LOGSIZE
    ensures |Shares(n)| == 3 && n / MAXOPBLOCKS < 3 && Shares(n)[n / MAXOPBLOCKS] < MAXOPBLOCKS
    ensures Shares(n)[n / MAXOPBLOCKS := Shares(n)[n / MAXOPBLOCKS] + 1] == Shares(n + 1)
    ensures Shares(0) == [0, 0, 0]
  {
  }

  /** Three operations begin and add `n` blocks. */
  lemma {:induction false} Fill(n: nat, size: nat) returns (calls: seq<Call>)
    requires n <= LOGSIZE && (n == 0 || n < size)
    ensures Runs(Start, calls, size) && Ends(Start, calls, size) == Counts(n, Shares(n))
  {
    if n == 0 {
      ShareStep(0);
      calls := [];
      RunsMore(Start, [], size, Begin);
      RunsMore(Start, [Begin], size, Begin);
      assert [Begin] + [Begin] == [Begin, Begin];
      RunsMore(Start, [Begin, Begin], size, Begin);
      calls := [Begin, Begin] + [Begin];
    } else {
      calls := Fill(n - 1, size);
      ShareStep(n - 1);
      var x := Write((n - 1) / MAXOPBLOCKS, true);
      RunsMore(Start, calls, size, x);
      calls := calls + [x];
    }
  }

  /**
   * No write of an operation within its share panics, in any sequence of calls, exactly if the log is
   * larger than LOGSIZE.
   */
  lemma ShareSafeIff(size: nat)
    ensures ShareSafe(size) <==> size > LOGSIZE
  {
    if size > LOGSIZE {
      forall calls, op | Runs(Start, calls, size) && Allowed(Ends(Start, calls, size), Write(op, true))
        ensures !Full(Ends(Start, calls, size), size)
      {
        RunsOk(Start, calls, size);
        HasReserve(Ends(Start, calls, size).ops, op);
      }
    } else {
      var n := if size == 0 then 0 else size - 1;
      var calls := Fill(n, size);
      ShareStep(n);
      var op := n / MAXOPBLOCKS;
      assert Allowed(Ends(Start, calls, size), Write(op, true)) && Full(Ends(Start, calls, size), size);
    }
  }

  /** The log that mkfs makes has LOGSIZE blocks: after 29 new blocks the next one panics. */
  lemma MkfsLogPanics() returns (calls: seq<Call>)
    ensures Runs(Start, calls, LOGSIZE) && Ends(Start, calls, LOGSIZE) == Counts(29, [10, 10, 9])
    ensures Allowed(Ends(Start, calls, LOGSIZE), Write(2, true)) && Full(Ends(Start, calls, LOGSIZE), LOGSIZE)
  {
    calls := Fill(29, LOGSIZE);
  }

  // ----- the buffers of a commit -----

  /** Number of buffers in the cache; committing `n` blocks takes one more than `n`. */
  const NBUF: nat := 30

  lemma {:induction false} RunsBelow(c: Counts, calls: seq<Call>, size: nat)
    requires Runs(c, calls, size) && (c.n == 0 || c.n < size)
    ensures var e := Ends(c, calls, size); e.n == 0 || e.n < size
    decreases |calls|
  {
    if calls != [] {
      RunsBelow(Next(c, calls[0]), calls[1..], size);
    }
  }

  /** Some sequence of calls leaves as many blocks to commit as there are buffers. */
  ghost predicate UsesAllBuffers(size: nat) {
    exists calls :: Runs(Start, calls, size) && Ends(Start, calls, size).n == NBUF
  }

  lemma UsesAllBuffersIff(size: nat)
    ensures UsesAllBuffers(size) <==> size > LOGSIZE
  {
    if size > LOGSIZE {
      var calls := Fill(NBUF, size);
    }
    if UsesAllBuffers(size) {
      var calls :| Runs(Start, calls, size) && Ends(Start, calls, size).n == NBUF;
      RunsBelow(Start, calls, size);
    }
  }

  /** A log that is safe from one of the two panics can always meet the other. */
  lemma NoSafeSize(size: nat)
    ensures ShareSafe(size) <==> UsesAllBuffers(size)
  {
    ShareSafeIff(size);
    UsesAllBuffersIff(size);
  }
}
