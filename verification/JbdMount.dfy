/**
 * Recovery that is interrupted and starts again with the next mount.  Mounting reads the superblock
 * from disk, marks it as in use there, and counts the mount in memory only.
 */
module JbdMount {
  import opened JbdFormat
  import opened JbdLog
  import opened JbdRecover
  import opened JbdRerun

  const IN_USE: Word := 0x0200

  /** The mount count of a superblock: a little-endian half word. */
  function MountCount(super: Block): (h: nat)
    requires |super| == 256
    ensures h < HALF
  {
    super[13] / HALF
  }

  /** The two bytes of a half word exchanged. */
  function Swap(h: nat): (r: nat)
    requires h < HALF
    ensures r < HALF
  {
    h % 256 * 256 + h / 256
  }

  lemma SwapTwice(h: nat)
    requires h < HALF
    ensures Swap(Swap(h)) == h
  {
    var hi, lo := h / 256, h % 256;
    assert Swap(h) / 256 == lo && Swap(h) % 256 == hi;
  }

  /** One more, modulo 2^16. */
  function NextCount(h: nat): (r: nat)
    requires h < HALF
    ensures r < HALF
  {
    Swap((Swap(h) + 1) % HALF)
  }

  lemma NextDiffers(a: nat, b: nat)
    requires a < HALF && b < HALF
    ensures NextCount(a) == NextCount(b) <==> a == b
  {
    hide Swap;
    var x, y := Swap(a), Swap(b);
    SwapTwice(a);
    SwapTwice(b);
    SwapTwice((x + 1) % HALF);
    SwapTwice((y + 1) % HALF);
    IncDiffers(x, y);
  }

  lemma IncDiffers(x: nat, y: nat)
    requires x < HALF && y < HALF
    ensures (x + 1) % HALF == (y + 1) % HALF ==> x == y
  {
  }

  /** The superblock on disk once the file system is in use. */
  function Used(super: Block): (r: Block)
    requires |super| == 256
    ensures |r| == 256
  {
    super[14 := super[14] / HALF * HALF + IN_USE]
  }

  function Counted(super: Block): (r: Block)
    requires |super| == 256
    ensures |r| == 256
  {
    super[13 := NextCount(MountCount(super)) * HALF + super[13] % HALF]
  }

  function Mounted(s: Store): (r: Store)
    requires |s.super| == 256
    ensures StoreOk(r) && |r.super| == 256
  {
    s.(super := Used(s.super), mem := Counted(Used(s.super)))
  }

  // ----- a superblock that was replayed -----

  /** The superblock part of a logged block. */
  function Part(data: Block): (r: Block)
    requires |data| >= 512
    ensures |r| == 256
  {
    data[256..512]
  }

  /** The last copy of the superblock among the first `n` that is replayed, or -1. */
  ghost function LastSuper(recs: seq<Record>, cs: seq<Copy>, n: nat): (i: int)
    requires n <= |cs|
    ensures -1 <= i < n && (i >= 0 ==> cs[i].block == 0 && !Cancelled(recs, cs[i]))
    ensures forall j :: i < j < n && cs[j].block == 0 ==> Cancelled(recs, cs[j])
  {
    if n == 0 then -1
    else if cs[n - 1].block == 0 && !Cancelled(recs, cs[n - 1]) then n - 1
    else LastSuper(recs, cs, n - 1)
  }

  /** One copy: the state of the running system survives a replayed superblock. */
  lemma SuperStep(log: Log, s: Store, c: Copy)
    requires LogOk(log) && StoreOk(s) && |s.super| == 256 && c.at <= Length(log.g)
    ensures |BlockAt(log, c.at)| == log.g.words
    ensures var s1 := WriteHome(s, c.block, BlockAt(log, c.at), c.escape);
      && StoreOk(s1) && |s1.super| == 256 && s1.mem[14] % HALF == s.mem[14] % HALF
      && if c.block == 0 && log.g.words >= 512 then s1.super == WithState(Part(BlockAt(log, c.at)), s.mem)
         else s1.super == s.super
  {
    if c.block == 0 && log.g.words >= 512 {
      HalfWord(Part(BlockAt(log, c.at))[14], s.mem[14]);
    }
  }

  /** Without a superblock to replay, the one on disk stays. */
  lemma {:induction false} ReplayKeepsSuper(log: Log, revs: map<nat, nat>, copies: seq<Copy>, s: Store)
    requires LogOk(log) && StoreOk(s) && InLog(log, copies) && |s.super| == 256
    ensures |Replay(log, revs, copies, s).super| == 256 && StoreOk(Replay(log, revs, copies, s))
    ensures (log.g.words < 512 || forall i :: 0 <= i < |copies| && copies[i].block == 0 ==>
      Skipped(revs, copies[i])) ==>
      Replay(log, revs, copies, s).super == s.super
    decreases |copies|
  {
    if copies != [] {
      var c := copies[0];
      SuperStep(log, s, c);
      hide BlockAt, WriteHome, WithState, Skipped;
      ReplayKeepsSuper(log, revs, copies[1..],
                       if Skipped(revs, c) then s else WriteHome(s, c.block, BlockAt(log, c.at), c.escape));
    }
  }

  /** The last superblock replayed is on disk, with its own mount count. */
  lemma {:induction false} ReplayLastSuper(log: Log, revs: map<nat, nat>, copies: seq<Copy>, s: Store, i: nat)
    requires LogOk(log) && StoreOk(s) && InLog(log, copies) && |s.super| == 256 && log.g.words >= 512
    requires LastCopy(revs, copies, i) && copies[i].block == 0
    ensures Replay(log, revs, copies, s).super == WithState(Part(BlockAt(log, copies[i].at)), s.mem)
    decreases |copies|
  {
    var c, rest := copies[0], copies[1..];
    var s1 := if Skipped(revs, c) then s else WriteHome(s, c.block, BlockAt(log, c.at), c.escape);
    SuperStep(log, s, c);
    if i == 0 {
      forall j | 0 <= j < |rest| && rest[j].block == 0 ensures Skipped(revs, rest[j]) {
        assert rest[j] == copies[j + 1];
      }
      ReplayKeepsSuper(log, revs, rest, s1);
    } else {
      assert rest[i - 1] == copies[i] && LastCopy(revs, rest, i - 1);
      ReplayLastSuper(log, revs, rest, s1, i - 1);
    }
  }

  /** Superblocks made from the same logged block for two mounts differ in the mount count alone. */
  lemma MergedCounts(data: Block, mem: Block, mem': Block)
    requires |data| >= 512 && |mem| == 256 == |mem'| && mem[14] % HALF == mem'[14] % HALF
    ensures Clean(Merged(data, mem)) == Clean(Merged(data, mem')) <==> MountCount(mem) == MountCount(mem')
  {
    var x, y := Merged(data, mem), Merged(data, mem');
    HalfWord(mem[13], Part(data)[13]);
    HalfWord(mem'[13], Part(data)[13]);
    assert x[13] / HALF == MountCount(mem) && y[13] / HALF == MountCount(mem');
    assert Clean(x)[13] == x[13] && Clean(y)[13] == y[13];
    if MountCount(mem) == MountCount(mem') {
      assert x == y;
    }
  }

  lemma MountedMem(s: Store)
    requires |s.super| == 256
    ensures Mounted(s).mem[14] % HALF == IN_USE && MountCount(Mounted(s).mem) == NextCount(MountCount(s.super))
    ensures MountCount(Mounted(s).super) == MountCount(s.super)
  {
    hide NextCount;
    var h := NextCount(MountCount(s.super));
    assert (h * HALF + s.super[13] % HALF) / HALF == h;
  }

  lemma UsedTwice(s: Store)
    requires |s.super| == 256
    ensures Used(Used(s.super)) == Used(s.super)
  {
    HalfWord(s.super[14], IN_USE);
  }

  /** Mounted, recovered as far as the first `n` copies, stopped, and mounted again. */
  ghost function Again(log: Log, s: Store, n: nat): (r: Store)
    requires CopiesOk(log) && |s.super| == 256 && n <= |Copies(Committed(log))|
    ensures StoreOk(r)
  {
    var revs, part := RevokeMap(Committed(log), map[]), Copies(Committed(log))[..n];
    assert InLog(log, part);
    ReplayKeepsSuper(log, revs, part, Mounted(s));
    Mounted(Replay(log, revs, part, Mounted(s)))
  }

  /** The superblock that a complete recovery leaves on disk. */
  ghost function FinalSuper(log: Log, s: Store): Block
    requires CopiesOk(log) && StoreOk(s)
  {
    ReplayStore(log, s);
    Finish(Recovered(log, s)).super
  }

  /** The copy replayed last before the stop, if there is one, has the mount count that is on disk. */
  ghost predicate CountKept(log: Log, s: Store, n: nat)
    requires CopiesOk(log) && |s.super| == 256 && n <= |Copies(Committed(log))|
  {
    var i := LastSuper(Committed(log), Copies(Committed(log)), n);
    log.g.words >= 512 && i >= 0 ==>
      MountCount(Part(BlockAt(log, Copies(Committed(log))[i].at))) == MountCount(s.super)
  }

  lemma FinalSuperIs(log: Log, s: Store)
    requires CopiesOk(log) && StoreOk(s)
    ensures var cs := Copies(Committed(log));
      && ((forall i :: 0 <= i < |cs| && cs[i].block == 0 ==> Cancelled(Committed(log), cs[i])) ==>
            FinalSuper(log, s) == Clean(s.mem))
      && (forall i :: 0 <= i < |cs| && cs[i].block == 0 && Newest(Committed(log), cs, i) ==>
            FinalSuper(log, s) == Clean(Merged(BlockAt(log, cs[i].at), s.mem)))
  {
    hide Committed, Copies, Cancelled, Merged, Clean, Replay, Fits;
    ReplayStore(log, s);
    SuperReplayed(log, s, Recovered(log, s));
  }

  lemma FinalSame(log: Log, s: Store, s': Store)
    requires CopiesOk(log) && StoreOk(s) && StoreOk(s') && s.mem == s'.mem
    ensures FinalSuper(log, s) == FinalSuper(log, s')
  {
    var recs := Committed(log);
    var cs := Copies(recs);
    hide Committed, Copies, Cancelled, Merged, Clean, FinalSuper, Fits;
    FinalSuperIs(log, s);
    FinalSuperIs(log, s');
    if i :| 0 <= i < |cs| && cs[i].block == 0 && !Cancelled(recs, cs[i]) {
      var k := SomeNewest(recs, cs, i, |cs|);
    }
  }

  /** What the next mount finds. */
  lemma AgainIs(log: Log, s: Store, n: nat)
    requires CopiesOk(log) && |s.super| == 256 && n <= |Copies(Committed(log))|
    ensures Again(log, s, n).mem[14] % HALF == IN_USE
    ensures var i := LastSuper(Committed(log), Copies(Committed(log)), n);
      if log.g.words < 512 || i < 0 then Again(log, s, n).mem == Mounted(s).mem
      else MountCount(Again(log, s, n).mem) == NextCount(MountCount(Part(BlockAt(log, Copies(Committed(log))[i].at))))
  {
    var recs := Committed(log);
    var cs, revs := Copies(recs), RevokeMap(recs, map[]);
    assert InLog(log, cs[..n]);
    var stopped := Replay(log, revs, cs[..n], Mounted(s));
    ReplayKeepsSuper(log, revs, cs[..n], Mounted(s));
    assert Again(log, s, n) == Mounted(stopped);
    forall c ensures Skipped(revs, c) <==> Cancelled(recs, c) {
      CancelledIs(log, c);
    }
    hide Committed, Copies, Cancelled, RevokeMap, Skipped, Fits, Replay, NextCount, LastSuper, MountCount, Again,
      Used, Counted, WithState, LogOk, BlockAt;
    StoppedSuper(log, recs, revs, cs, n, Mounted(s));
    UsedTwice(s);
    MountedMem(stopped);
    MountedMem(s);
  }

  lemma StoppedSuper(log: Log, recs: seq<Record>, revs: map<nat, nat>, cs: seq<Copy>, n: nat, s: Store)
    requires LogOk(log) && StoreOk(s) && |s.super| == 256 && n <= |cs| && InLog(log, cs)
    requires forall c :: Skipped(revs, c) <==> Cancelled(recs, c)
    ensures InLog(log, cs[..n])
    ensures var stopped, i := Replay(log, revs, cs[..n], s), LastSuper(recs, cs, n);
      && |stopped.super| == 256
      && if log.g.words < 512 || i < 0 then stopped.super == s.super
         else MountCount(stopped.super) == MountCount(Part(BlockAt(log, cs[i].at)))
  {
    var part, i := cs[..n], LastSuper(recs, cs, n);
    hide Cancelled, Skipped, Replay, LastSuper, MountCount;
    ReplayKeepsSuper(log, revs, part, s);
    if i < 0 {
      forall j | 0 <= j < |part| && part[j].block == 0 ensures Skipped(revs, part[j]) {
        assert part[j] == cs[j];
      }
    } else if log.g.words >= 512 {
      LastInPart(recs, revs, cs, n);
      ReplayLastSuper(log, revs, part, s, i);
      StateCount(Part(BlockAt(log, cs[i].at)), s.mem);
    }
  }

  lemma LastInPart(recs: seq<Record>, revs: map<nat, nat>, cs: seq<Copy>, n: nat)
    requires n <= |cs| && LastSuper(recs, cs, n) >= 0 && forall c :: Skipped(revs, c) <==> Cancelled(recs, c)
    ensures cs[..n][LastSuper(recs, cs, n)] == cs[LastSuper(recs, cs, n)] &&
      LastCopy(revs, cs[..n], LastSuper(recs, cs, n))
  {
    hide Skipped, Cancelled;
  }

  lemma StateCount(part: Block, mem: Block)
    requires |part| == 256 == |mem|
    ensures MountCount(WithState(part, mem)) == MountCount(part)
  {
  }

  /**
   * Recovery stopped after `n` copies and repeated with the next mount leaves the same superblock as
   * one that was not stopped, if and only if no copy of the superblock was replayed before the stop
   * or the last of them has the mount count that was on disk.
   */
  lemma RerunSuper(log: Log, s: Store, n: nat)
    requires CopiesOk(log) && |s.super| == 256 && n <= |Copies(Committed(log))|
    ensures FinalSuper(log, Again(log, s, n)) == FinalSuper(log, Mounted(s)) <==> CountKept(log, s, n)
  {
    var recs := Committed(log);
    var cs := Copies(recs);
    var i := LastSuper(recs, cs, n);
    AgainIs(log, s, n);
    hide Committed, Copies, Cancelled, Merged, Clean, FinalSuper, Fits, Again, NextCount, Mounted, MountCount,
      LastSuper;
    if log.g.words < 512 || i < 0 {
      FinalSame(log, Again(log, s, n), Mounted(s));
    } else {
      var k := SomeNewest(recs, cs, i, |cs|);
      FinalSuperIs(log, Again(log, s, n));
      FinalSuperIs(log, Mounted(s));
      MountedMem(s);
      MergedCounts(BlockAt(log, cs[k].at), Again(log, s, n).mem, Mounted(s).mem);
      NextDiffers(MountCount(Part(BlockAt(log, cs[i].at))), MountCount(s.super));
    }
  }
}
