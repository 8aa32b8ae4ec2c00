/**
 * Recovery of a journal in three passes over the same records: find the last committed
 * transaction, collect the revocations, put the logged copies back in place.
 */
module JbdRecover {
  import opened JbdFormat
  import opened JbdLog

  datatype Err = EOK | EIO

  datatype Action = ScanPass | RevokePass | RecoverPass

  ghost function Ids(first: Word, revs: map<nat, nat>): map<nat, Word> {
    map b | b in revs :: Id(first, revs[b])
  }

  ghost predicate Bounded(log: Log, revs: map<nat, nat>)
    requires LogOk(log)
  {
    forall b :: b in revs ==> revs[b] <= Length(log.g)
  }

  lemma RingStep(g: Geometry, start: nat, o: nat)
    requires GeometryOk(g) && g.first <= start < g.maxlen && o < Length(g)
    ensures Wrap(g, At(g, start, o) + 1) == At(g, start, o + 1)
    ensures g.first <= At(g, start, o) < g.maxlen
    ensures At(g, start, o + 1) == start <==> o + 1 == Length(g)
  {
  }

  /** The id of the last of `n` transactions. */
  ghost function LastId(first: Word, n: nat): Word {
    Id(first, if n > 0 then n - 1 else 0)
  }

  // ----- progress of a pass -----

  datatype Goal = Goal(revs: map<nat, nat>, store: Store)

  ghost predicate CopiesOk(log: Log) {
    LogOk(log) && Fits(log, 0, 0) && InLog(log, Copies(Committed(log)))
  }

  /** What a pass that starts with `revs` and `store` must end with. */
  ghost function GoalOf(log: Log, action: Action, revs: map<nat, nat>, store: Store): Goal
    requires CopiesOk(log) && StoreOk(store)
  {
    Goal(if action.RevokePass? then RevokeMap(Committed(log), revs) else revs,
         if action.RecoverPass? then Replay(log, revs, Copies(Committed(log)), store) else store)
  }

  ghost predicate Reached(action: Action, revs: map<nat, nat>, store: Store, goal: Goal) {
    revs == goal.revs && store == goal.store
  }

  /** The pass is at offset `o` in transaction `k`, and the rest of its records leads to the goal. */
  ghost predicate Progress(log: Log, n: nat, o: nat, k: nat, action: Action, revs: map<nat, nat>, store: Store,
                           goal: Goal) {
    && LogOk(log) && Fits(log, o, k) && k <= o && StoreOk(store)
    && k + Commits(Records(log, o, k)) == n
    && var live := Live(Records(log, o, k), n);
    && (if action.RevokePass? then RevokeMap(live, revs) == goal.revs else revs == goal.revs)
    && InLog(log, Copies(live))
    && (if action.RecoverPass? then Replay(log, revs, Copies(live), store) == goal.store else store == goal.store)
  }

  /** The pass has nothing more to read. */
  ghost predicate Ended(log: Log, n: nat, o: nat, k: nat, action: Action, revs: map<nat, nat>, store: Store,
                        goal: Goal) {
    && Progress(log, n, o, k, action, revs, store, goal)
    && (k >= n || o >= Length(log.g) || NoRecord(log, BlockAt(log, o), k))
  }

  ghost predicate NoRecord(log: Log, b: Block, k: nat) {
    !Expected(log, b, k) || (b[1] != DESCRIPTOR && b[1] != COMMIT && b[1] != REVOKE)
  }

  // ----- what recovery must achieve -----

  /** Copy `i` of all committed ones is the last of its block that no committed record cancels. */
  ghost predicate Newest(recs: seq<Record>, cs: seq<Copy>, i: nat) {
    && i < |cs| && !Cancelled(recs, cs[i])
    && forall j :: i < j < |cs| && cs[j].block == cs[i].block ==> Cancelled(recs, cs[j])
  }

  /** Block `b` holds its newest copy, or is untouched if there is none. */
  ghost predicate Restored(log: Log, before: Store, after: Store, b: nat)
    requires LogOk(log) && Fits(log, 0, 0)
  {
    var recs := Committed(log);
    var cs := Copies(recs);
    && (forall i :: 0 <= i < |cs| ==> cs[i].at <= Length(log.g))
    && ((forall i :: 0 <= i < |cs| && cs[i].block == b ==> Cancelled(recs, cs[i])) ==>
          && (b in after.blocks <==> b in before.blocks)
          && (b in before.blocks ==> after.blocks[b] == before.blocks[b]))
    && (forall i :: 0 <= i < |cs| && cs[i].block == b && Newest(recs, cs, i) ==>
          b in after.blocks && after.blocks[b] == Unescape(BlockAt(log, cs[i].at), cs[i].escape))
  }

  /** The superblock of a logged block 0, with the running system's state and mount count. */
  function Merged(data: Block, mem: Block): (r: Block)
    requires |mem| == 256
    ensures |r| == 256
  {
    if |data| < 512 then mem else WithMountCount(WithState(data[256..512], mem), mem)
  }

  /** Clear the needs-recovery flag in the feature word. */
  function Clean(mem: Block): Block
    requires |mem| == 256
  {
    if Flag(mem[24], 0x0400_0000) then mem[24 := mem[24] - 0x0400_0000] else mem
  }

  function Finish(s: Store): Store
    requires |s.mem| == 256
  {
    s.(super := Clean(s.mem), mem := Clean(s.mem))
  }

  /**
   * The superblock `r` is `source` with the state and the mount count of `mem`, and without the flag
   * that recovery is needed.  No other bit differs.
   */
  ghost predicate CleanSuper(r: Block, source: Block, mem: Block)
    requires |source| == 256 == |mem|
  {
    && |r| == 256
    && !Flag(r[24], 0x0400_0000)
    && r[24] % 0x0400_0000 == source[24] % 0x0400_0000 && r[24] / 0x0800_0000 == source[24] / 0x0800_0000
    && r[13] / HALF == mem[13] / HALF && r[13] % HALF == source[13] % HALF
    && r[14] / HALF == source[14] / HALF && r[14] % HALF == mem[14] % HALF
    && forall i :: 0 <= i < 256 && i != 13 && i != 14 && i != 24 ==> r[i] == source[i]
  }

  lemma CleanIs(mem: Block)
    requires |mem| == 256
    ensures CleanSuper(Clean(mem), mem, mem)
  {
    FlagCleared(mem[24]);
  }

  lemma FlagCleared(w: Word)
    ensures var r := if Flag(w, 0x0400_0000) then w - 0x0400_0000 else w;
      !Flag(r, 0x0400_0000) && r % 0x0400_0000 == w % 0x0400_0000 && r / 0x0800_0000 == w / 0x0800_0000
  {
    var q, l := w / 0x0400_0000, w % 0x0400_0000;
    assert w == q * 0x0400_0000 + l;
    if q % 2 == 1 {
      assert w - 0x0400_0000 == (q - 1) * 0x0400_0000 + l;
    }
  }

  lemma MergedIs(data: Block, mem: Block)
    requires |mem| == 256 && |data| >= 512
    ensures CleanSuper(Clean(Merged(data, mem)), data[256..512], mem)
  {
    var part, m := data[256..512], Merged(data, mem);
    CleanIs(m);
    assert m[13] == mem[13] / HALF * HALF + part[13] % HALF && m[14] == part[14] / HALF * HALF + mem[14] % HALF;
  }

  ghost predicate SuperRestored(log: Log, before: Store, after: Store)
    requires LogOk(log) && Fits(log, 0, 0) && StoreOk(before)
  {
    var recs := Committed(log);
    var cs := Copies(recs);
    && (forall i :: 0 <= i < |cs| ==> cs[i].at <= Length(log.g))
    && after.super == after.mem
    && ((forall i :: 0 <= i < |cs| && cs[i].block == 0 ==> Cancelled(recs, cs[i])) ==>
          CleanSuper(after.super, before.mem, before.mem))
    && (forall i :: 0 <= i < |cs| && cs[i].block == 0 && Newest(recs, cs, i) ==>
          var data := BlockAt(log, cs[i].at);
          CleanSuper(after.super, if |data| < 512 then before.mem else data[256..512], before.mem))
  }

  class Recovery {
    const g: Geometry
    const ring: seq<Block>
    var start: nat
    var sequence: Word
    var store: Store
    /** The revoke tree: the id of the last transaction that revoked the block. */
    var revoke: map<nat, Word>
    var transCnt: nat
    var lastTransId: Word
    ghost var revs: map<nat, nat>

    ghost function TheLog(): Log
      reads this
    {
      Log(g, ring, start, sequence)
    }

    ghost predicate Valid()
      reads this
    {
      && LogOk(TheLog()) && Fits(TheLog(), 0, 0) && StoreOk(store)
      && Bounded(TheLog(), revs) && revoke == Ids(sequence, revs)
    }

    constructor (g: Geometry, ring: seq<Block>, start: nat, sequence: Word, store: Store)
      requires LogOk(Log(g, ring, start, sequence)) && Fits(Log(g, ring, start, sequence), 0, 0) && StoreOk(store)
      ensures Valid() && TheLog() == Log(g, ring, start, sequence) && this.store == store
      ensures revs == map[]
    {
      this.g, this.ring, this.start, this.sequence, this.store := g, ring, start, sequence, store;
      revoke, revs, transCnt, lastTransId := map[], map[], 0, sequence;
    }

    /** Put one logged copy back, unless its block was revoked at or after its transaction. */
    method ReplayTag(tag: Tag, thisBlock: nat, id: Word, ghost k: nat, ghost o: nat)
      requires Valid() && k <= Length(g) && o <= Length(g)
      requires id == Id(sequence, k) && thisBlock == At(g, start, o)
      modifies this`store
      ensures Valid()
      ensures store == Replay(TheLog(), revs, [Copy(k, o, tag.block, tag.escape)], old(store))
    {
      hide Fits;
      ghost var c := Copy(k, o, tag.block, tag.escape);
      ghost var log := TheLog();
      assert [c][1..] == [];
      if tag.block in revoke {
        IdDiffIs(sequence, k, revs[tag.block]);
        if IdDiff(id, revoke[tag.block]) <= 0 {
          assert Skipped(revs, c);
          return;
        }
      }
      assert !Skipped(revs, c) && BlockAt(log, o) == ring[thisBlock];
      store := WriteHome(store, tag.block, ring[thisBlock], tag.escape);
    }

    /** Go through the tags of a descriptor block; `thisBlock` moves along with them. */
    method IterateTable(b: Block, thisBlock0: nat, replay: bool, id: Word, ghost k: nat, ghost o: nat)
      returns (thisBlock: nat)
      requires Valid() && k <= Length(g) && o + 1 + |TableOf(g, b)| <= Length(g)
      requires id == Id(sequence, k) && thisBlock0 == At(g, start, o)
      modifies this`store
      ensures Valid()
      ensures thisBlock == At(g, start, o + |TableOf(g, b)|)
      ensures InLog(TheLog(), TagCopies(TableOf(g, b), k, o + 1))
      ensures store == if replay then Replay(TheLog(), revs, TagCopies(TableOf(g, b), k, o + 1),
        old(store)) else old(store)
    {
      hide Fits, LogOk, StoreOk, Replay, InLog, TagCopies, Tags, ReadTag, TagSize, Ids, Bounded, Wrap;
      ghost var log, all := TheLog(), TagCopies(TableOf(g, b), k, o + 1);
      TagsInLog(log, TableOf(g, b), k, o + 1);
      thisBlock := thisBlock0;
      var p := 3;
      ghost var rest: seq<Tag>, at: nat := TableOf(g, b), o;
      while p < |b|
        invariant Valid() && TheLog() == log
        invariant at + |rest| == o + |TableOf(g, b)| && thisBlock == At(g, start, at)
        invariant rest == Tags(g, b, p)
        invariant InLog(log, TagCopies(rest, k, at + 1))
        invariant replay ==> Replay(log, revs, TagCopies(rest, k, at + 1), store) == Replay(log, revs, all, old(store))
        invariant !replay ==> store == old(store)
      {
        TableStep(g, b, p);
        var tag := ReadTag(g, b, p);
        if tag.None? {
          break;
        }
        ghost var tail := if tag.value.last then [] else Tags(g, b, p + TagSize(g, tag.value));
        RingNext(log, at);
        thisBlock := Wrap(g, thisBlock + 1);
        TagsInLog(log, tail, k, at + 2);
        if replay {
          ghost var s0 := store;
          ReplayTag(tag.value, thisBlock, id, k, at + 1);
          ReplayHead(log, revs, tag.value, tail, k, at + 1, s0);
        }
        rest, at := tail, at + 1;
        if tag.value.last {
          break;
        }
        p := p + TagSize(g, tag.value);
      }
      TableStep(g, b, p);
      ReplayNone(log, revs, k, at + 1, store);
    }

    /** Enter the blocks of a revoke record under the given transaction. */
    method BuildRevokeTree(b: Block, id: Word, ghost k: nat)
      requires Valid() && CountOk(b) && id == Id(sequence, k) && k <= Length(g)
      modifies this`revoke, this`revs
      ensures Valid() && revs == old(revs) + AllTo(Revokes(g, b), k)
    {
      hide Fits, LogOk, Ids, AllTo, Bounded, Revokes, RevokeCount;
      var n := RevokeCount(g, b);
      ghost var log, all := TheLog(), Revokes(g, b);
      RevokesLen(g, b);
      var i := 0;
      AllToNone(revs, all, k);
      while i < n
        invariant i <= n && Valid() && revs == old(revs) + AllTo(all[..i], k)
      {
        var block := RevokeAt(g, b, i);
        RevokesIs(g, b, i);
        AllToSnoc(old(revs), all, i, k);
        AddRevoke(log, revs, block, k);
        revoke, revs := revoke[block := id], revs[block := k];
        i := i + 1;
      }
      assert all[..n] == all;
    }

    /**
     * Follow the log from its start.  The first pass looks for its end, the other two stop after
     * the last committed transaction.
     */
    method IterateLog(action: Action) returns (r: Err)
      requires Valid()
      requires !action.ScanPass? ==>
        transCnt == Commits(Records(TheLog(), 0, 0)) && lastTransId == LastId(sequence, transCnt)
      modifies this`store, this`revoke, this`revs, this`transCnt, this`lastTransId
      ensures r == EOK && Valid()
      ensures transCnt == Commits(Records(TheLog(), 0, 0)) && lastTransId == LastId(sequence, transCnt)
      ensures revs == if action.RevokePass? then RevokeMap(Committed(TheLog()), old(revs)) else old(revs)
      ensures CopiesOk(TheLog())
      ensures store ==
        if action.RecoverPass? then Replay(TheLog(), revs, Copies(Committed(TheLog())), old(store)) else old(store)
    {
      hide Fits, LogOk, StoreOk, Ids, Bounded, Records, Progress, Replay, CopiesOk, TableOf, LastId, IdDiff, Id, Wrap,
        At, BlockAt, Revokes, AllTo, Commits, Live, RevokeMap, Copies, TagCopies;
      ghost var log := TheLog();
      ghost var n := Commits(Records(log, 0, 0));
      Begin(log, action, revs, store);
      ghost var goal := GoalOf(log, action, revs, store);
      var logEnd := false;
      var thisTransId, thisBlock := sequence, start;
      ghost var o: nat, k: nat := 0, 0;
      if action.ScanPass? {
        transCnt := 0;
      } else if transCnt == 0 {
        logEnd := true;
      }
      r := EOK;
      ghost var e: nat := o;
      while !logEnd
        invariant Valid() && TheLog() == log
        invariant !logEnd ==> o < Length(g) && Progress(log, n, o, k, action, revs, store, goal)
        invariant logEnd ==> Ended(log, n, e, k, action, revs, store, goal)
        invariant r == EIO ==> logEnd && k < n
        invariant thisBlock == At(g, start, o) && thisTransId == Id(sequence, k)
        invariant !logEnd ==> k <= o
        invariant action.ScanPass? ==> transCnt == k
        invariant !action.ScanPass? ==> transCnt == n && lastTransId == LastId(sequence, n)
        invariant !action.ScanPass? && !logEnd ==> n > 0
        invariant !action.RevokePass? ==> revs == old(revs)
        invariant !action.RecoverPass? ==> store == old(store)
        decreases if logEnd then 0 else 1 + Length(g) - o
      {
        Position(log, n, o, k, action, revs, store, goal);
        if !action.ScanPass? {
          if IdDiff(thisTransId, lastTransId) > 0 {
            logEnd, e := true, o;
            continue;
          }
        }
        var header := ring[thisBlock];
        if header[0] != MAGIC {
          logEnd, e := true, o;
          continue;
        }
        if header[2] != thisTransId {
          if !action.ScanPass? {
            r := EIO;
          }
          logEnd, e := true, o;
          continue;
        }
        if header[1] == DESCRIPTOR {
          DescriptorStep(log, n, o, k, action, revs, store, goal);
          thisBlock := IterateTable(header, thisBlock, action.RecoverPass?, thisTransId, k, o);
          o := o + |TableOf(g, header)|;
        } else if header[1] == COMMIT {
          CommitStep(log, n, o, k, action, revs, store, goal);
          thisTransId := (thisTransId + 1) % WORD_LIMIT;
          if action.ScanPass? {
            transCnt := transCnt + 1;
          }
          k := k + 1;
        } else if header[1] == REVOKE {
          RevokeStep(log, n, o, k, action, revs, store, goal);
          if action.RevokePass? {
            BuildRevokeTree(header, thisTransId, k);
          }
        } else {
          logEnd, e := true, o;
        }
        RingNext(log, o);
        thisBlock := Wrap(g, thisBlock + 1);
        o := o + 1;
        if !logEnd {
          Place(log, n, o, k, action, revs, store, goal);
        }
        if thisBlock == start {
          e := if logEnd then e else o;
          logEnd := true;
        }
      }
      Over(log, n, e, k, action, revs, store, goal);
      EndBound(log);
      LastIdIs(log, k);
      if action.ScanPass? {
        if IdDiff(thisTransId, sequence) > 0 {
          lastTransId := (thisTransId - 1) % WORD_LIMIT;
        } else {
          lastTransId := thisTransId;
        }
      }
    }

    /** Recover the journal and mark it empty. */
    method Recover() returns (r: Err)
      requires start == 0 || (Valid() && revs == map[])
      modifies this
      ensures r == EOK
      ensures old(start) == 0 ==> store == old(store) && start == 0 && sequence == old(sequence)
      ensures old(start) != 0 ==>
        var log := old(TheLog());
        && start == 0 && sequence == LastId(log.id, Commits(Records(log, 0, 0)))
        && (forall b :: b != 0 ==> Restored(log, old(store), store, b))
        && SuperRestored(log, old(store), store)
    {
      if start == 0 {
        return EOK;
      }
      hide Valid, Records, Commits, Replay, Copies, RevokeMap, Restored, SuperRestored, CopiesOk;
      ghost var log, s0 := TheLog(), store;
      ValidLog();
      r := IterateLog(ScanPass);
      r := IterateLog(RevokePass);
      r := IterateLog(RecoverPass);
      ValidLog();
      forall b | b != 0 ensures Restored(log, s0, Finish(store), b) {
        ReplayRestores(log, s0, store, b);
      }
      ReplayRestoresSuper(log, s0, store);
      start, sequence := 0, lastTransId;
      store := Finish(store);
    }

    lemma ValidLog()
      requires Valid()
      ensures LogOk(TheLog()) && Fits(TheLog(), 0, 0) && StoreOk(store)
    {
    }
  }

  lemma RevokesLen(g: Geometry, b: Block)
    requires CountOk(b)
    ensures |Revokes(g, b)| == RevokeCount(g, b)
  {
  }

  lemma RevokesIs(g: Geometry, b: Block, i: nat)
    requires CountOk(b) && i < RevokeCount(g, b)
    ensures |Revokes(g, b)| == RevokeCount(g, b) && Revokes(g, b)[i] == RevokeAt(g, b, i)
  {
  }

  lemma AllToNone(m: map<nat, nat>, all: seq<nat>, k: nat)
    ensures m + AllTo(all[..0], k) == m
  {
  }

  lemma AllToSnoc(m: map<nat, nat>, all: seq<nat>, i: nat, k: nat)
    requires i < |all|
    ensures m + AllTo(all[..i + 1], k) == (m + AllTo(all[..i], k))[all[i] := k]
  {
    assert all[..i + 1] == all[..i] + [all[i]];
  }

  lemma AddRevoke(log: Log, revs: map<nat, nat>, block: nat, k: nat)
    requires LogOk(log) && Bounded(log, revs) && k <= Length(log.g)
    ensures Bounded(log, revs[block := k])
    ensures Ids(log.id, revs[block := k]) == Ids(log.id, revs)[block := Id(log.id, k)]
  {
  }

  lemma RingNext(log: Log, o: nat)
    requires LogOk(log) && o < Length(log.g)
    ensures Wrap(log.g, At(log.g, log.start, o) + 1) == At(log.g, log.start, o + 1)
  {
  }

  lemma {:induction false} TagsInLog(log: Log, tags: seq<Tag>, k: nat, at: nat)
    requires LogOk(log) && at + |tags| <= Length(log.g) + 1
    ensures InLog(log, TagCopies(tags, k, at)) && |TagCopies(tags, k, at)| == |tags|
  {
    if tags != [] {
      TagsInLog(log, tags[1..], k, at + 1);
    }
  }

  lemma ReplayNone(log: Log, revs: map<nat, nat>, k: nat, at: nat, s: Store)
    requires LogOk(log) && StoreOk(s)
    ensures InLog(log, TagCopies([], k, at)) && Replay(log, revs, TagCopies([], k, at), s) == s
  {
  }

  lemma TableStep(g: Geometry, b: Block, p: nat)
    ensures p >= |b| || ReadTag(g, b, p).None? ==> Tags(g, b, p) == []
    ensures p < |b| && ReadTag(g, b, p).Some? ==>
      var tag := ReadTag(g, b, p).value;
      && TagSize(g, tag) >= 2
      && Tags(g, b, p) == [tag] + if tag.last then [] else Tags(g, b, p + TagSize(g, tag))
  {
  }

  lemma ReplayHead(log: Log, revs: map<nat, nat>, tag: Tag, tail: seq<Tag>, k: nat, at: nat, s: Store)
    requires LogOk(log) && StoreOk(s) && at <= Length(log.g)
    requires InLog(log, TagCopies(tail, k, at + 1))
    ensures InLog(log, [Copy(k, at, tag.block, tag.escape)]) && InLog(log, TagCopies([tag] + tail, k, at))
    ensures StoreOk(Replay(log, revs, [Copy(k, at, tag.block, tag.escape)], s))
    ensures Replay(log, revs, TagCopies([tag] + tail, k, at), s) ==
      Replay(log, revs, TagCopies(tail, k, at + 1), Replay(log, revs, [Copy(k, at, tag.block, tag.escape)], s))
  {
    assert ([tag] + tail)[1..] == tail;
    ReplayAppend(log, revs, [Copy(k, at, tag.block, tag.escape)], TagCopies(tail, k, at + 1), s);
  }

  // ----- steps of a pass -----

  lemma {:induction false} LiveInLog(log: Log, o: nat, k: nat, n: nat)
    requires LogOk(log) && Fits(log, o, k)
    ensures InLog(log, Copies(Live(Records(log, o, k), n)))
    decreases Length(log.g) - o
  {
    var recs := Records(log, o, k);
    if recs != [] && k < n {
      FirstRecord(log, o, k);
      LiveInLog(log, NextAt(log, o), NextTxn(log, o, k), n);
      if recs[0].Descriptor? {
        TagsInLog(log, recs[0].tags, k, o + 1);
      }
    }
  }

  lemma CopiesAreOk(log: Log)
    requires LogOk(log) && Fits(log, 0, 0)
    ensures CopiesOk(log)
  {
    LiveInLog(log, 0, 0, Commits(Records(log, 0, 0)));
  }

  lemma Begin(log: Log, action: Action, revs: map<nat, nat>, store: Store)
    requires LogOk(log) && Fits(log, 0, 0) && StoreOk(store)
    ensures CopiesOk(log)
    ensures Progress(log, Commits(Records(log, 0, 0)), 0, 0, action, revs, store, GoalOf(log, action, revs, store))
    ensures At(log.g, log.start, 0) == log.start && Id(log.id, 0) == log.id && Length(log.g) > 0
  {
    CopiesAreOk(log);
  }

  lemma Position(log: Log, n: nat, o: nat, k: nat, action: Action, revs: map<nat, nat>, store: Store, goal: Goal)
    requires Progress(log, n, o, k, action, revs, store, goal) && o < Length(log.g)
    ensures k <= n && n <= Length(log.g) && k <= Length(log.g)
    ensures At(log.g, log.start, o) < |log.ring| && BlockAt(log, o) == log.ring[At(log.g, log.start, o)]
    ensures |BlockAt(log, o)| >= 256
    ensures n > 0 ==> IdDiff(Id(log.id, k), LastId(log.id, n)) == k - (n - 1)
  {
    CommitsBound(log, o, k);
    if n > 0 {
      IdDiffIs(log.id, k, n - 1);
    }
  }

  lemma {:induction false} CommitsBound(log: Log, o: nat, k: nat)
    requires LogOk(log) && Fits(log, o, k)
    ensures o + Commits(Records(log, o, k)) <= Length(log.g)
    decreases Length(log.g) - o
  {
    if Records(log, o, k) != [] {
      FirstRecord(log, o, k);
      CommitsBound(log, NextAt(log, o), NextTxn(log, o, k));
    }
  }

  /** No transaction is left. */
  lemma Over(log: Log, n: nat, o: nat, k: nat, action: Action, revs: map<nat, nat>, store: Store, goal: Goal)
    requires Ended(log, n, o, k, action, revs, store, goal)
    ensures k == n && Reached(action, revs, store, goal)
  {
    var recs := Records(log, o, k);
    assert recs != [] ==> recs[0].txn == k;
    assert Live(recs, n) == [];
  }

  lemma StepRest(log: Log, n: nat, o: nat, k: nat)
    requires LogOk(log) && Fits(log, o, k) && Records(log, o, k) != []
    ensures o < Length(log.g) && Fits(log, NextAt(log, o), NextTxn(log, o, k))
    ensures var recs, rest := Records(log, o, k), Records(log, NextAt(log, o), NextTxn(log, o, k));
      && k + Commits(recs) == NextTxn(log, o, k) + Commits(rest)
      && (k < n ==> Live(recs, n) == [recs[0]] + Live(rest, n))
  {
    FirstRecord(log, o, k);
  }

  lemma CopiesHead(rec: Record, rest: seq<Record>)
    ensures Copies([rec] + rest) == CopiesOf(rec) + Copies(rest)
    ensures forall m ::
      RevokeMap([rec] + rest, m) == RevokeMap(rest, if rec.Revocation? then m + AllTo(rec.blocks, rec.txn) else m)
  {
    assert ([rec] + rest)[1..] == rest;
  }

  /** One record further: its effect is taken out of the rest and put into the state. */
  lemma Advance(log: Log, n: nat, o: nat, k: nat, action: Action, revs: map<nat, nat>, store: Store, goal: Goal,
                revs': map<nat, nat>, store': Store)
    requires Progress(log, n, o, k, action, revs, store, goal) && Records(log, o, k) != []
    requires action.ScanPass? || k < n
    requires var rec := Records(log, o, k)[0];
      && revs' == (if action.RevokePass? && rec.Revocation? then revs + AllTo(rec.blocks, k) else revs)
      && InLog(log, CopiesOf(rec))
      && store' == (if action.RecoverPass? then Replay(log, revs, CopiesOf(rec), store) else store)
    ensures o < Length(log.g)
    ensures Progress(log, n, NextAt(log, o), NextTxn(log, o, k), action, revs', store', goal)
    ensures NextAt(log, o) <= Length(log.g)
  {
    StepRest(log, n, o, k);
    var rec, rest := Records(log, o, k)[0], Records(log, NextAt(log, o), NextTxn(log, o, k));
    LiveInLog(log, NextAt(log, o), NextTxn(log, o, k), n);
    assert rec.txn == k;
    hide Records, Fits, Replay;
    NextLater(log, o);
    ReplayAppend(log, revs, CopiesOf(rec), Copies(Live(rest, n)), store);
    CopiesHead(rec, Live(rest, n));
  }

  lemma RecordHere(log: Log, o: nat, k: nat)
    requires LogOk(log) && Fits(log, o, k) && o < Length(log.g) && Expected(log, BlockAt(log, o), k)
    ensures var b := BlockAt(log, o);
      && (b[1] == DESCRIPTOR ==>
            && Records(log, o, k) != [] && Records(log, o, k)[0] == Descriptor(k, o, TableOf(log.g, b))
            && NextAt(log, o) == o + 1 + |TableOf(log.g, b)| <= Length(log.g) && NextTxn(log, o, k) == k)
      && (b[1] == COMMIT ==>
            && Records(log, o, k) != [] && Records(log, o, k)[0] == Commit(k)
            && NextAt(log, o) == o + 1 && NextTxn(log, o, k) == k + 1)
      && (b[1] == REVOKE ==>
            && CountOk(b) && Records(log, o, k) != [] && Records(log, o, k)[0] == Revocation(k, Revokes(log.g, b))
            && NextAt(log, o) == o + 1 && NextTxn(log, o, k) == k)
  {
    var b := BlockAt(log, o);
    assert b[1] == DESCRIPTOR ==> Fits(log, o + 1 + |TableOf(log.g, b)|, k);
  }

  lemma DescriptorStep(log: Log, n: nat, o: nat, k: nat, action: Action, revs: map<nat, nat>, store: Store, goal: Goal)
    requires Progress(log, n, o, k, action, revs, store, goal) && o < Length(log.g)
    requires Expected(log, BlockAt(log, o), k) && BlockAt(log, o)[1] == DESCRIPTOR
    requires action.ScanPass? || k < n
    ensures var table := TableOf(log.g, BlockAt(log, o));
      && o + 1 + |table| <= Length(log.g)
      && InLog(log, TagCopies(table, k, o + 1))
      && Progress(log, n, o + 1 + |table|, k, action, revs,
                  if action.RecoverPass? then Replay(log, revs, TagCopies(table, k, o + 1), store) else store, goal)
  {
    hide Records, Fits, NextAt, NextTxn, TableOf, Expected, Replay, Live;
    var table := TableOf(log.g, BlockAt(log, o));
    RecordHere(log, o, k);
    TagsInLog(log, table, k, o + 1);
    Advance(log, n, o, k, action, revs, store, goal, revs,
            if action.RecoverPass? then Replay(log, revs, TagCopies(table, k, o + 1), store) else store);
  }

  lemma PlainReplay(log: Log, revs: map<nat, nat>, store: Store, rec: Record)
    requires LogOk(log) && StoreOk(store) && !rec.Descriptor?
    ensures InLog(log, CopiesOf(rec)) && Replay(log, revs, CopiesOf(rec), store) == store
  {
  }

  lemma CommitStep(log: Log, n: nat, o: nat, k: nat, action: Action, revs: map<nat, nat>, store: Store, goal: Goal)
    requires Progress(log, n, o, k, action, revs, store, goal) && o < Length(log.g)
    requires Expected(log, BlockAt(log, o), k) && BlockAt(log, o)[1] == COMMIT
    requires action.ScanPass? || k < n
    ensures Progress(log, n, o + 1, k + 1, action, revs, store, goal)
    ensures Id(log.id, k + 1) == (Id(log.id, k) + 1) % WORD_LIMIT
  {
    hide Records, Fits, NextAt, NextTxn, TableOf, Expected, Replay, Live;
    RecordHere(log, o, k);
    PlainReplay(log, revs, store, Commit(k));
    Advance(log, n, o, k, action, revs, store, goal, revs, store);
  }

  lemma RevokeStep(log: Log, n: nat, o: nat, k: nat, action: Action, revs: map<nat, nat>, store: Store, goal: Goal)
    requires Progress(log, n, o, k, action, revs, store, goal) && o < Length(log.g)
    requires Expected(log, BlockAt(log, o), k) && BlockAt(log, o)[1] == REVOKE
    requires action.ScanPass? || k < n
    ensures CountOk(BlockAt(log, o))
    ensures Progress(log, n, o + 1, k, action,
      if action.RevokePass? then revs + AllTo(Revokes(log.g, BlockAt(log, o)), k) else revs, store, goal)
  {
    hide Records, Fits, NextAt, NextTxn, TableOf, Expected, Replay, Live;
    RecordHere(log, o, k);
    var rec := Revocation(k, Revokes(log.g, BlockAt(log, o)));
    PlainReplay(log, revs, store, rec);
    Advance(log, n, o, k, action, revs, store, goal,
            if action.RevokePass? then revs + AllTo(rec.blocks, k) else revs, store);
  }

  lemma Place(log: Log, n: nat, o: nat, k: nat, action: Action, revs: map<nat, nat>, store: Store, goal: Goal)
    requires Progress(log, n, o, k, action, revs, store, goal) && o > 0
    ensures o <= Length(log.g) && k <= o && (At(log.g, log.start, o) == log.start <==> o == Length(log.g))
  {
  }

  lemma EndBound(log: Log)
    requires LogOk(log) && Fits(log, 0, 0)
    ensures Commits(Records(log, 0, 0)) <= Length(log.g)
  {
    CommitsBound(log, 0, 0);
  }

  lemma LastIdIs(log: Log, k: nat)
    requires LogOk(log) && k <= Length(log.g)
    ensures LastId(log.id, k) ==
      if IdDiff(Id(log.id, k), log.id) > 0 then (Id(log.id, k) - 1) % WORD_LIMIT else Id(log.id, k)
  {
    IdDiffIs(log.id, k, 0);
    assert Id(log.id, 0) == log.id;
  }

  // ----- the passes together -----

  lemma CancelledIs(log: Log, c: Copy)
    requires LogOk(log) && Fits(log, 0, 0)
    ensures Skipped(RevokeMap(Committed(log), map[]), c) <==> Cancelled(Committed(log), c)
  {
    CommittedOrdered(log);
    SkippedIs(Committed(log), map[], c);
  }

  lemma ReplayRestores(log: Log, before: Store, after: Store, b: nat)
    requires CopiesOk(log) && StoreOk(before) && StoreOk(after) && b != 0
    requires after == Replay(log, RevokeMap(Committed(log), map[]), Copies(Committed(log)), before)
    ensures Restored(log, before, Finish(after), b)
  {
    var recs := Committed(log);
    var cs, revs := Copies(recs), RevokeMap(recs, map[]);
    hide Committed, Copies, RevokeMap, Replay, Fits, Cancelled, Skipped;
    forall c ensures Skipped(revs, c) <==> Cancelled(recs, c) {
      CancelledIs(log, c);
    }
    if forall i :: 0 <= i < |cs| && cs[i].block == b ==> Cancelled(recs, cs[i]) {
      ReplayUntouched(log, revs, cs, before, b);
    }
    forall i | 0 <= i < |cs| && cs[i].block == b && Newest(recs, cs, i)
      ensures b in after.blocks && after.blocks[b] == Unescape(BlockAt(log, cs[i].at), cs[i].escape)
    {
      ReplayLast(log, revs, cs, before, i);
    }
  }

  lemma MergeTwice(d1: Block, d2: Block, mem: Block)
    requires |mem| == 256 && |d1| == |d2|
    ensures Merged(d2, Merged(d1, mem)) == Merged(d2, mem)
  {
    if |d1| >= 512 {
      var m1 := Merged(d1, mem);
      HalfWord(d1[256..512][14], mem[14]);
      HalfWord(mem[13], d1[256..512][13]);
      assert m1[14] % HALF == mem[14] % HALF && m1[13] / HALF == mem[13] / HALF;
    }
  }

  lemma HalfWord(a: Word, b: Word)
    ensures (a / HALF * HALF + b % HALF) % HALF == b % HALF
    ensures (a / HALF * HALF + b % HALF) / HALF == a / HALF
    ensures a / HALF * HALF + b % HALF < WORD_LIMIT
  {
  }

  lemma {:induction false} ReplaySuper(log: Log, revs: map<nat, nat>, copies: seq<Copy>, s: Store)
    requires LogOk(log) && StoreOk(s) && InLog(log, copies)
    ensures (forall i :: 0 <= i < |copies| && copies[i].block == 0 ==> Skipped(revs, copies[i])) ==>
      Replay(log, revs, copies, s).mem == s.mem
    ensures forall i :: 0 <= i < |copies| && copies[i].block == 0 && LastCopy(revs, copies, i) ==>
      Replay(log, revs, copies, s).mem == Merged(BlockAt(log, copies[i].at), s.mem)
  {
    if copies != [] {
      var c, rest := copies[0], copies[1..];
      var s1 := if Skipped(revs, c) then s else WriteHome(s, c.block, BlockAt(log, c.at), c.escape);
      ReplaySuper(log, revs, rest, s1);
      forall i | 0 <= i < |copies| && copies[i].block == 0 && LastCopy(revs, copies, i)
        ensures Replay(log, revs, copies, s).mem == Merged(BlockAt(log, copies[i].at), s.mem)
      {
        if i == 0 {
          forall j | 0 <= j < |rest| && rest[j].block == 0 ensures Skipped(revs, rest[j]) {
            assert rest[j] == copies[j + 1];
          }
        } else {
          assert rest[i - 1] == copies[i] && LastCopy(revs, rest, i - 1);
          if !Skipped(revs, c) && c.block == 0 {
            MergeTwice(BlockAt(log, c.at), BlockAt(log, copies[i].at), s.mem);
          }
        }
      }
    }
  }

  /** The superblock is the last one replayed, or else the one in memory, cleaned. */
  lemma SuperReplayed(log: Log, before: Store, after: Store)
    requires CopiesOk(log) && StoreOk(before) && StoreOk(after)
    requires after == Replay(log, RevokeMap(Committed(log), map[]), Copies(Committed(log)), before)
    ensures var cs := Copies(Committed(log));
      && ((forall i :: 0 <= i < |cs| && cs[i].block == 0 ==> Cancelled(Committed(log), cs[i])) ==>
            Finish(after).super == Clean(before.mem))
      && (forall i :: 0 <= i < |cs| && cs[i].block == 0 && Newest(Committed(log), cs, i) ==>
            Finish(after).super == Clean(Merged(BlockAt(log, cs[i].at), before.mem)))
  {
    var recs := Committed(log);
    var cs, revs := Copies(recs), RevokeMap(recs, map[]);
    hide Committed, Copies, RevokeMap, Replay, Fits, Cancelled, Skipped, Merged, Clean;
    forall c ensures Skipped(revs, c) <==> Cancelled(recs, c) {
      CancelledIs(log, c);
    }
    ReplaySuper(log, revs, cs, before);
    forall i | 0 <= i < |cs| && cs[i].block == 0 && Newest(recs, cs, i) ensures LastCopy(revs, cs, i) {
    }
  }

  lemma ReplayRestoresSuper(log: Log, before: Store, after: Store)
    requires CopiesOk(log) && StoreOk(before) && StoreOk(after)
    requires after == Replay(log, RevokeMap(Committed(log), map[]), Copies(Committed(log)), before)
    ensures SuperRestored(log, before, Finish(after))
  {
    var cs := Copies(Committed(log));
    hide Committed, Copies, RevokeMap, Replay, Fits, Cancelled, Merged, CleanSuper, Clean;
    SuperReplayed(log, before, after);
    CleanIs(before.mem);
    forall i | 0 <= i < |cs| && cs[i].block == 0 && Newest(Committed(log), cs, i)
      ensures CleanSuper(Clean(Merged(BlockAt(log, cs[i].at), before.mem)),
        if |BlockAt(log, cs[i].at)| < 512 then before.mem else BlockAt(log, cs[i].at)[256..512], before.mem)
    {
      SuperIs(BlockAt(log, cs[i].at), before.mem);
    }
  }

  lemma SuperIs(data: Block, mem: Block)
    requires |mem| == 256
    ensures CleanSuper(Clean(Merged(data, mem)), if |data| < 512 then mem else data[256..512], mem)
  {
    hide Clean, CleanSuper;
    if |data| < 512 {
      CleanIs(mem);
    } else {
      MergedIs(data, mem);
    }
  }
}
