/** Reading, setting, releasing and freeing the blocks of an inode with indirect blocks. */
module IndirectFile {
  import opened IndirectMap
  import opened Lists
  import opened Arithmetic

  datatype Err = EOK | EIO | ENOSPC | EINVAL

  /** Part of the way is done: `l` levels are left, and `off` is the offset in the rest. */
  ghost predicate OnWay(n: nat, x: nat, l: nat, off: nat)
    requires n > 0
  {
    && 1 <= l <= LevelOf(n, x) <= 3 && off < Per(n, l)
    && |WayOf(n, x)| == LevelOf(n, x)
    && Way(n, l, off) == WayOf(n, x)[LevelOf(n, x) - l..]
  }

  /** The index to follow next, and the offset that is left behind it. */
  function IndexOf(n: nat, l: nat, off: nat): nat
    requires n > 0 && l > 0
  {
    PerPositive(n, l - 1);
    off / Per(n, l - 1)
  }

  function RestOf(n: nat, l: nat, off: nat): nat
    requires n > 0 && l > 0
  {
    PerPositive(n, l - 1);
    off % Per(n, l - 1)
  }

  lemma StartWay(n: nat, x: nat)
    requires n > 0 && 1 <= LevelOf(n, x) <= 3
    ensures OnWay(n, x, LevelOf(n, x), x - Limit(n, LevelOf(n, x) - 1))
  {
    WayOfIs(n, x);
  }

  /** The next index, and what is left behind it. */
  lemma NextWay(n: nat, x: nat, l: nat, off: nat)
    requires n > 0 && OnWay(n, x, l, off)
    ensures Per(n, l - 1) > 0 && off / Per(n, l - 1) < n
    ensures var w, k := WayOf(n, x), LevelOf(n, x) - l;
      && w[k] == off / Per(n, l - 1) && w[..k + 1] == w[..k] + [w[k]]
      && WayOk(n, w[..k]) && WayOk(n, w[..k + 1])
      && (l > 1 ==> OnWay(n, x, l - 1, off % Per(n, l - 1)))
      && (l == 1 ==> w[..k + 1] == w)
  {
    WayOfIs(n, x);
    PerPositive(n, l - 1);
    DivBound(off, Per(n, l - 1), n);
    var w, k := WayOf(n, x), LevelOf(n, x) - l;
    assert w[k..][0] == w[k];
    assert w[k..][1..] == w[k + 1..];
  }

  class Inode {
    /** References in one indirect block. */
    const n: nat
    const blockSize: nat
    var size: nat
    var m: BlockMap
    /** Block with extended attributes, or 0. */
    var acl: nat
    /** The blocks the allocator is going to hand out, in order. */
    var pool: seq<nat>
    ghost var place: map<nat, Place>

    ghost predicate Valid()
      reads this
    {
      && TreeOk(n, m, place) && blockSize > 0
      && Distinct(pool) && forall i :: 0 <= i < |pool| ==> pool[i] != 0 && pool[i] !in place
    }

    constructor (n: nat, blockSize: nat, pool: seq<nat>)
      requires n > 0 && blockSize > 0 && Distinct(pool) && forall i :: 0 <= i < |pool| ==> pool[i] != 0
      ensures Valid() && size == 0 && acl == 0 && forall x :: 0 <= x ==> Lookup(n, m, x) == 0
      ensures this.n == n && this.blockSize == blockSize && place == map[]
    {
      this.n, this.blockSize, this.pool := n, blockSize, pool;
      size, acl, place := 0, 0, map[];
      m := BlockMap(Zeros(DIRECT), Zeros(3), map[]);
      new;
      forall l, w | 1 <= l <= 3 ensures At(m, l, w) == 0 {
        assert At(m, l, []) == 0;
        NothingBehind(m, l, [], w);
      }
    }

    /** The address of logical block `x`, 0 in a hole. */
    method GetBlock(x: nat) returns (err: Err, b: nat)
      requires Valid()
      ensures err == if size != 0 && x >= End(n) then EIO else EOK
      ensures b == if size == 0 then 0 else Answer(n, m, x)
    {
      hide TreeOk, OnWay, LevelOf, Limit, WayOf, At, Lookup, Reached, IndexOf, RestOf, Answer, End;
      TreeShape(n, m, place);
      LookupIs(n, m, x);
      LevelCases(n, m, x);
      if size == 0 {
        return EOK, 0;
      }
      if x < DIRECT {
        return EOK, m.direct[x];
      }
      var level := LevelOf(n, x);
      if level == 4 {
        return EIO, 0;
      }
      StartWay(n, x);
      LevelFacts(n, m, x);
      var off: nat := x - Limit(n, level - 1);
      var cur := m.ind[level - 1];
      if cur == 0 {
        return EOK, 0;
      }
      var l := level;
      while l > 0
        invariant l <= level && (l > 0 ==> OnWay(n, x, l, off))
        invariant Reached(n, m, x, l, cur) && cur != 0
      {
        StepDown(n, m, place, x, l, off, cur);
        cur := m.mem[cur][IndexOf(n, l, off)];
        if cur == 0 {
          return EOK, 0;
        }
        off := RestOf(n, l, off);
        l := l - 1;
      }
      Arrived(n, m, x, cur);
      return EOK, cur;
    }

    /** Make logical block `x` refer to block `b`, with indirect blocks added where they are missing. */
    method SetBlock(x: nat, b: nat) returns (err: Err)
      requires Valid()
      modifies this`m, this`pool, this`place
      ensures Valid()
      ensures err == EIO <==> x >= End(n)
      ensures err == ENOSPC <==> 1 <= LevelOf(n, x) <= 3 && |old(pool)| < Missing(n, old(m), x, 0)
      ensures err == EOK || err == EIO || err == ENOSPC
      ensures pool == match err
        case EOK => if 1 <= LevelOf(n, x) <= 3 then old(pool)[Missing(n, old(m), x, 0)..] else old(pool)
        case ENOSPC => []
        case _ => old(pool)
      ensures forall a :: a in place <==> a in old(place) || (a in old(pool) && a !in pool)
      ensures forall y :: 0 <= y ==>
        Answer(n, m, y) == if err == EOK && y == x then b else Answer(n, old(m), y)
    {
      hide TreeOk, LevelOf, Lookup, Answer, End, Missing, Distinct;
      TreeShape(n, m, place);
      LookupIs(n, m, x);
      AnswerAll(n, m);
      LevelCases(n, m, x);
      err := SetReference(x, b);
      TreeShape(n, m, place);
      AnswerAll(n, m);
    }

    method SetReference(x: nat, b: nat) returns (err: Err)
      requires Valid()
      modifies this`m, this`pool, this`place
      ensures Valid()
      ensures err == EIO <==> LevelOf(n, x) == 4
      ensures err == ENOSPC <==> 1 <= LevelOf(n, x) <= 3 && |old(pool)| < Missing(n, old(m), x, 0)
      ensures err == EOK && 1 <= LevelOf(n, x) <= 3 ==> |pool| == |old(pool)| - Missing(n, old(m), x, 0)
      ensures err == ENOSPC ==> pool == []
      ensures err == EIO || LevelOf(n, x) == 0 ==> pool == old(pool)
      ensures Rest(old(pool), pool, old(place), place)
      ensures err == EOK || err == EIO || err == ENOSPC
      ensures LevelOf(n, x) == 0 ==> place == old(place)
      ensures forall y :: 0 <= y ==>
        Lookup(n, m, y) == if err == EOK && y == x then b else Lookup(n, old(m), y)
    {
      hide TreeOk, OnWay, LevelOf, Limit, WayOf, At, Lookup, Reached, Zeros, Distinct, IndexOf, RestOf, WithRoot,
        WithBranch, Written, Put, Missing, Rest;
      TreeShape(n, m, place);
      LevelCases(n, m, x);
      RestSelf(pool, place);
      if x < DIRECT {
        SetDirect(n, m, place, x, b);
        m := m.(direct := Put(m.direct, x, b));
        return EOK;
      }
      var level := LevelOf(n, x);
      if level == 4 {
        return EIO;
      }
      StartWay(n, x);
      LevelFacts(n, m, x);
      var off: nat := x - Limit(n, level - 1);
      var cur := m.ind[level - 1];
      MissingAt(n, m, x, level, cur);
      if cur == 0 {
        if pool == [] {
          return ENOSPC;
        }
        var r := pool[0];
        RootKeeps(n, m, place, level, r);
        RootMissing(n, m, place, x, r);
        PoolTail(pool);
        RestMore(old(pool), pool, old(place), place, Place(level, []));
        m, pool, place := WithRoot(n, m, level, r), pool[1..], place[r := Place(level, [])];
        TreeShape(n, m, place);
        RootIs(n, old(m), level, r);
        LevelFacts(n, m, x);
        cur := r;
      }
      var l := level;
      while l > 1
        invariant 1 <= l <= level && OnWay(n, x, l, off) && Valid() && Shape(m)
        invariant Reached(n, m, x, l, cur) && cur != 0 && Rest(old(pool), pool, old(place), place)
        invariant |old(pool)| - |pool| + Missing(n, m, x, level - l + 1) == Missing(n, old(m), x, 0)
        invariant forall y :: 0 <= y ==> Lookup(n, m, y) == Lookup(n, old(m), y)
      {
        StepDown(n, m, place, x, l, off, cur);
        var i := IndexOf(n, l, off);
        var next := m.mem[cur][i];
        MissingAt(n, m, x, l - 1, next);
        if next == 0 {
          if pool == [] {
            return ENOSPC;
          }
          var r := pool[0];
          ghost var at := Branch(n, m, place, x, l, off, cur, r);
          PoolTail(pool);
          RestMore(old(pool), pool, old(place), place, at);
          m, pool, place := WithBranch(n, m, cur, i, r), pool[1..], place[r := at];
          TreeShape(n, m, place);
          next := r;
        }
        cur := next;
        off := RestOf(n, l, off);
        l := l - 1;
      }
      MissingNone(n, m, x);
      Leaf(n, m, place, x, off, cur, b);
      m := Written(m, cur, IndexOf(n, 1, off), b);
      return EOK;
    }

    /** Nothing is mapped behind the end of the file. */
    ghost predicate Ended()
      reads this
      requires n > 0 && Shape(m)
    {
      EndsAt(n, m, BlocksFor(blockSize, size))
    }

    /** Make the file one block longer, with the new block at `b`. */
    method Append(b: nat) returns (err: Err, x: nat)
      requires Valid()
      modifies this`m, this`pool, this`place, this`size
      ensures Valid() && x == BlocksFor(blockSize, old(size))
      ensures err == EIO <==> x >= End(n)
      ensures err == ENOSPC <==> 1 <= LevelOf(n, x) <= 3 && |old(pool)| < Missing(n, old(m), x, 0)
      ensures err == EOK || err == EIO || err == ENOSPC
      ensures size == if err == EOK then (x + 1) * blockSize else old(size)
      ensures forall y :: 0 <= y ==>
        Answer(n, m, y) == if err == EOK && y == x then b else Answer(n, old(m), y)
      ensures old(Ended()) ==> Ended()
    {
      hide TreeOk, LevelOf, Lookup, Distinct, Missing, Answer, End;
      TreeShape(n, m, place);
      AnswerAll(n, m);
      ghost var m0 := m;
      var whole := if size % blockSize != 0 then size + (blockSize - size % blockSize) else size;
      x := whole / blockSize;
      WholeBlocks(blockSize, size, whole, x);
      hide BlocksFor;
      err := SetBlock(x, b);
      TreeShape(n, m, place);
      AnswerAll(n, m);
      if err == EOK {
        size := whole + blockSize;
      }
      forall y: nat | EndsAt(n, m0, x) && Lookup(n, m, y) != 0
        ensures y < x || (err == EOK && y == x) {
      }
    }

    /** Take the reference of logical block `x` out of the map and free the block. */
    method ReleaseBlock(x: nat) returns (err: Err, freed: seq<nat>)
      requires Valid()
      modifies this`m
      ensures Valid() && SameTrees(n, old(m), m)
      ensures err == if x >= End(n) then EIO else EOK
      ensures freed == Mapped(n, old(m), x)
      ensures forall y :: 0 <= y ==> Lookup(n, m, y) == if y == x then 0 else Lookup(n, old(m), y)
    {
      hide TreeOk, OnWay, LevelOf, Limit, WayOf, At, Lookup, Reached, Distinct, IndexOf, RestOf, Written, Put,
        SameTrees, Answer, End;
      TreeShape(n, m, place);
      LevelCases(n, m, x);
      LookupIs(n, m, x);
      SameTreesSelf(n, m);
      if x < DIRECT {
        var b := m.direct[x];
        if b == 0 {
          return EOK, [];
        }
        SetDirect(n, m, place, x, 0);
        m := m.(direct := Put(m.direct, x, 0));
        return EOK, [b];
      }
      var level := LevelOf(n, x);
      if level == 4 {
        return EIO, [];
      }
      StartWay(n, x);
      LevelFacts(n, m, x);
      var off: nat := x - Limit(n, level - 1);
      var cur := m.ind[level - 1];
      var l := level;
      while l > 1
        invariant m == old(m) && 1 <= l <= level && OnWay(n, x, l, off) && Reached(n, m, x, l, cur)
        invariant cur == 0 ==> Lookup(n, m, x) == 0
      {
        if cur == 0 {
          return EOK, [];
        }
        StepDown(n, m, place, x, l, off, cur);
        cur := m.mem[cur][IndexOf(n, l, off)];
        off := RestOf(n, l, off);
        l := l - 1;
      }
      if cur == 0 {
        return EOK, [];
      }
      StepDown(n, m, place, x, 1, off, cur);
      var b := m.mem[cur][IndexOf(n, 1, off)];
      Arrived(n, m, x, b);
      Leaf(n, m, place, x, off, cur, 0);
      m := Written(m, cur, IndexOf(n, 1, off), 0);
      return EOK, if b == 0 then [] else [b];
    }

    /** Shorten the file: release the blocks behind its new end. */
    method Truncate(newSize: nat) returns (err: Err, freed: seq<nat>)
      requires Valid()
      modifies this`m, this`size
      ensures Valid() && SameTrees(n, old(m), m)
      ensures newSize > old(size) ==> err == EINVAL && size == old(size) && freed == [] && m == old(m)
      ensures newSize <= old(size) && BlocksFor(blockSize, old(size)) <= End(n) ==>
        && err == EOK && size == newSize
        && freed == DataBlocks(n, old(m), BlocksFor(blockSize, newSize), BlocksFor(blockSize, old(size)))
        && Cut(n, old(m), m, BlocksFor(blockSize, newSize), BlocksFor(blockSize, old(size)))
      ensures newSize <= old(size) && BlocksFor(blockSize, old(size)) > End(n) ==>
        var from := BlocksFor(blockSize, newSize);
        var stop := if from == BlocksFor(blockSize, old(size)) || from > End(n) then from else End(n);
        && err == (if from < BlocksFor(blockSize, old(size)) then EIO else EOK)
        && size == (if err == EOK then newSize else old(size))
        && freed == DataBlocks(n, old(m), from, stop) && Cut(n, old(m), m, from, stop)
      ensures old(Ended()) ==> Ended()
    {
      hide TreeOk, LevelOf, End, Lookup, Distinct, SameTrees, BlocksFor;
      freed := [];
      TreeShape(n, m, place);
      SameTreesSelf(n, m);
      var oldCnt, newCnt := BlocksFor(blockSize, size), BlocksFor(blockSize, newSize);
      NoData(n, m, newCnt);
      if size == newSize {
        return EOK, [];
      }
      if size < newSize {
        return EINVAL, [];
      }
      MoreBlocks(blockSize, newSize, size);
      ghost var m0 := m;
      var i := newCnt;
      while i < oldCnt
        invariant newCnt <= i <= oldCnt && Valid() && Shape(m) && SameTrees(n, m0, m) && size == old(size)
        invariant freed == DataBlocks(n, m0, newCnt, i) && (i == newCnt || i <= End(n))
        invariant Cut(n, m0, m, newCnt, i)
      {
        ghost var m1 := m;
        var rc, f := ReleaseBlock(i);
        TreeShape(n, m, place);
        SameTreesJoin(n, m0, m1, m);
        BeyondLimit(n, i);
        if rc != EOK {
          NoneBeyond(n, m0, i);
          return EIO, freed;
        }
        freed := freed + f;
        i := i + 1;
      }
      size := newSize;
      err := EOK;
    }

    /** Free the indirect blocks and the attribute block of an inode that goes away. */
    method FreeInode() returns (freed: seq<nat>)
      requires Valid()
      modifies this`m, this`acl
      ensures m.ind == [0, 0, 0] && m.direct == old(m).direct && acl == 0
      ensures freed == IndirectBlocks(n, old(m)) + if old(acl) == 0 then [] else [old(acl)]
    {
      TreeShape(n, m, place);
      Blocks3(n, m, place);
      hide TreeOk, Kids, SubKids, Rooted;
      var mem, ind := m.mem, m.ind;
      var single: seq<nat>, double: seq<nat>, triple: seq<nat> := [], [], [];
      if ind[0] != 0 {
        single := [ind[0]];
      }
      if ind[1] != 0 {
        double := FreeEntries(mem[ind[1]]);
        double := double + [ind[1]];
      }
      if ind[2] != 0 {
        triple := FreeBranches(mem, mem[ind[2]]);
        triple := triple + [ind[2]];
      }
      m := m.(ind := [0, 0, 0]);
      freed := single + double + triple + if acl == 0 then [] else [acl];
      acl := 0;
    }
  }

  /** With `l` levels left, the walk for `x` is at block `cur`. */
  ghost predicate Reached(n: nat, m: BlockMap, x: nat, l: nat, cur: nat)
    requires n > 0 && Shape(m)
  {
    && 0 <= l <= LevelOf(n, x) && 1 <= LevelOf(n, x) <= 3 && |WayOf(n, x)| == LevelOf(n, x)
    && cur == At(m, LevelOf(n, x), WayOf(n, x)[..LevelOf(n, x) - l])
  }

  /** How many indirect blocks on the way to `x` are missing, from the one `k` levels down on. */
  ghost function Missing(n: nat, m: BlockMap, x: nat, k: nat): nat
    requires n > 0 && Shape(m)
    decreases 4 - k
  {
    if k >= LevelOf(n, x) || LevelOf(n, x) > 3 || k > |WayOf(n, x)| then 0
    else (if At(m, LevelOf(n, x), WayOf(n, x)[..k]) == 0 then 1 else 0) + Missing(n, m, x, k + 1)
  }

  /** With `l` levels left: the block at hand and the ones behind it. */
  lemma MissingAt(n: nat, m: BlockMap, x: nat, l: nat, cur: nat)
    requires n > 0 && Shape(m) && Reached(n, m, x, l, cur) && l > 0
    ensures var k := LevelOf(n, x) - l;
      Missing(n, m, x, k) == (if cur == 0 then 1 else 0) + Missing(n, m, x, k + 1)
  {
  }

  lemma MissingNone(n: nat, m: BlockMap, x: nat)
    requires n > 0 && Shape(m)
    ensures Missing(n, m, x, LevelOf(n, x)) == 0
  {
  }

  lemma {:induction false} MissingSame(n: nat, m: BlockMap, m': BlockMap, x: nat, k: nat)
    requires n > 0 && Shape(m) && Shape(m') && 1 <= LevelOf(n, x) <= 3 && |WayOf(n, x)| == LevelOf(n, x)
    requires forall j :: k <= j < LevelOf(n, x) ==>
      At(m', LevelOf(n, x), WayOf(n, x)[..j]) == At(m, LevelOf(n, x), WayOf(n, x)[..j])
    ensures Missing(n, m', x, k) == Missing(n, m, x, k)
    decreases 4 - k
  {
    hide At, WayOf, LevelOf;
    if k < LevelOf(n, x) {
      MissingSame(n, m, m', x, k + 1);
    }
  }

  lemma RootMissing(n: nat, m: BlockMap, place: map<nat, Place>, x: nat, r: nat)
    requires TreeOk(n, m, place) && 1 <= LevelOf(n, x) <= 3 && m.ind[LevelOf(n, x) - 1] == 0 && r != 0 && r !in place
    ensures Missing(n, WithRoot(n, m, LevelOf(n, x), r), x, 1) == Missing(n, m, x, 1)
  {
    var l, w, m' := LevelOf(n, x), WayOf(n, x), WithRoot(n, m, LevelOf(n, x), r);
    WayOfIs(n, x);
    forall j | 1 <= j < l ensures At(m', l, w[..j]) == At(m, l, w[..j]) {
      RootAt(n, m, place, l, r, l, w[..j]);
    }
    MissingSame(n, m, m', x, 1);
  }

  lemma BranchMissing(n: nat, m: BlockMap, place: map<nat, Place>, x: nat, k: nat, i: nat, r: nat)
    requires TreeOk(n, m, place) && 1 <= LevelOf(n, x) <= 3 && k + 1 < LevelOf(n, x) && r != 0 && r !in place
    requires var w, l := WayOf(n, x), LevelOf(n, x);
      |w| == l && w[..k + 1] == w[..k] + [i] && At(m, l, w[..k]) != 0 && At(m, l, w[..k + 1]) == 0
    ensures var a := At(m, LevelOf(n, x), WayOf(n, x)[..k]);
      a in m.mem && i < |m.mem[a]| && a != r
      && Missing(n, WithBranch(n, m, a, i, r), x, k + 2) == Missing(n, m, x, k + 2)
  {
    var l, w := LevelOf(n, x), WayOf(n, x);
    WayOfIs(n, x);
    assert w[..k + 1][k] == i;
    BranchAt(n, m, place, l, w[..k], i, r, l, w[..k]);
    var m' := WithBranch(n, m, At(m, l, w[..k]), i, r);
    forall j | k + 2 <= j < l ensures At(m', l, w[..j]) == At(m, l, w[..j]) {
      BranchAt(n, m, place, l, w[..k], i, r, l, w[..j]);
    }
    MissingSame(n, m, m', x, k + 2);
  }

  lemma RootIs(n: nat, m: BlockMap, l: nat, r: nat)
    requires Shape(m) && 1 <= l <= 3
    ensures WithRoot(n, m, l, r).ind[l - 1] == r
  {
  }

  /** The blocks that have left the pool are places of indirect blocks now. */
  ghost predicate Rest(old_: seq<nat>, pool: seq<nat>, before: map<nat, Place>, place: map<nat, Place>) {
    && |pool| <= |old_| && pool == old_[|old_| - |pool|..]
    && forall a :: a in place <==> a in before || (a in old_ && a !in pool)
  }

  lemma RestSelf(pool: seq<nat>, place: map<nat, Place>)
    ensures Rest(pool, pool, place, place)
  {
  }

  lemma RestMore(old_: seq<nat>, pool: seq<nat>, before: map<nat, Place>, place: map<nat, Place>, at: Place)
    requires Rest(old_, pool, before, place) && pool != [] && Distinct(pool)
    ensures Rest(old_, pool[1..], before, place[pool[0] := at])
  {
    assert pool[1..] == old_[|old_| - |pool[1..]|..];
    forall a ensures a in pool <==> a in pool[1..] || a == pool[0] {
    }
  }

  lemma AnswerAll(n: nat, m: BlockMap)
    requires n > 0 && Shape(m)
    ensures forall y: nat :: Answer(n, m, y) == Lookup(n, m, y)
  {
    forall y: nat ensures Answer(n, m, y) == Lookup(n, m, y) {
      LookupIs(n, m, y);
    }
  }

  lemma LevelCases(n: nat, m: BlockMap, x: nat)
    requires n > 0 && Shape(m)
    ensures LevelOf(n, x) <= 4 && (x < DIRECT <==> LevelOf(n, x) == 0)
    ensures x < DIRECT ==> Lookup(n, m, x) == m.direct[x]
    ensures LevelOf(n, x) == 4 ==> Lookup(n, m, x) == 0
  {
  }

  lemma LevelFacts(n: nat, m: BlockMap, x: nat)
    requires n > 0 && Shape(m) && 1 <= LevelOf(n, x) <= 3
    ensures x >= Limit(n, LevelOf(n, x) - 1)
    ensures Reached(n, m, x, LevelOf(n, x), m.ind[LevelOf(n, x) - 1])
    ensures m.ind[LevelOf(n, x) - 1] == 0 ==> Lookup(n, m, x) == 0
  {
    WayOfIs(n, x);
    var l, w := LevelOf(n, x), WayOf(n, x);
    assert w[..0] == [];
    if m.ind[l - 1] == 0 {
      NothingBehind(m, l, [], w);
    }
  }

  lemma Arrived(n: nat, m: BlockMap, x: nat, cur: nat)
    requires n > 0 && Shape(m) && Reached(n, m, x, 0, cur)
    ensures Lookup(n, m, x) == cur
  {
    assert WayOf(n, x)[..LevelOf(n, x)] == WayOf(n, x);
  }

  /** One level down: the entry read is the next block on the way, and a missing one is a hole. */
  lemma StepDown(n: nat, m: BlockMap, place: map<nat, Place>, x: nat, l: nat, off: nat, cur: nat)
    requires TreeOk(n, m, place) && OnWay(n, x, l, off) && Reached(n, m, x, l, cur) && cur != 0
    ensures cur in m.mem && |m.mem[cur]| == n && cur in place && IndexOf(n, l, off) < n
    ensures Reached(n, m, x, l - 1, m.mem[cur][IndexOf(n, l, off)])
    ensures l > 1 ==> OnWay(n, x, l - 1, RestOf(n, l, off))
    ensures m.mem[cur][IndexOf(n, l, off)] == 0 ==> Lookup(n, m, x) == 0
  {
    NextWay(n, x, l, off);
    var level, w := LevelOf(n, x), WayOf(n, x);
    var k := level - l;
    assert Rooted(n, m, place, level, w[..k]);
    assert w[..k + 1][..k] == w[..k];
    if m.mem[cur][IndexOf(n, l, off)] == 0 {
      NothingBehind(m, level, w[..k + 1], w);
    }
  }

  lemma Branch(n: nat, m: BlockMap, place: map<nat, Place>, x: nat, l: nat, off: nat, cur: nat,
               r: nat) returns (at: Place)
    requires TreeOk(n, m, place) && OnWay(n, x, l, off) && Reached(n, m, x, l, cur) && cur != 0 && l > 1
    requires r != 0 && r !in place
    requires cur in m.mem && IndexOf(n, l, off) < |m.mem[cur]| && m.mem[cur][IndexOf(n, l, off)] == 0
    ensures cur != r
    ensures var m' := WithBranch(n, m, cur, IndexOf(n, l, off), r);
      && TreeOk(n, m', place[r := at]) && Shape(m') && Reached(n, m', x, l - 1, r)
      && Missing(n, m', x, LevelOf(n, x) - l + 2) == Missing(n, m, x, LevelOf(n, x) - l + 2)
      && (forall y :: 0 <= y ==> Lookup(n, m', y) == Lookup(n, m, y))
  {
    NextWay(n, x, l, off);
    var level, w := LevelOf(n, x), WayOf(n, x);
    var k := level - l;
    assert Rooted(n, m, place, level, w[..k]);
    var i := IndexOf(n, l, off);
    at := Place(level, w[..k] + [i]);
    assert (w[..k] + [i])[..k] == w[..k];
    BranchKeeps(n, m, place, level, w[..k], i, r);
    assert w[..k + 1] == w[..k] + [i];
    BranchMissing(n, m, place, x, k, i, r);
  }

  lemma Leaf(n: nat, m: BlockMap, place: map<nat, Place>, x: nat, off: nat, cur: nat, b: nat)
    requires TreeOk(n, m, place) && OnWay(n, x, 1, off) && Reached(n, m, x, 1, cur) && cur != 0
    ensures cur in m.mem && IndexOf(n, 1, off) < |m.mem[cur]|
    ensures var m' := Written(m, cur, IndexOf(n, 1, off), b);
      && TreeOk(n, m', place) && SameTrees(n, m, m')
      && forall y :: 0 <= y ==> Lookup(n, m', y) == if y == x then b else Lookup(n, m, y)
  {
    NextWay(n, x, 1, off);
    var level, w := LevelOf(n, x), WayOf(n, x);
    var k := level - 1;
    assert Rooted(n, m, place, level, w[..k]);
    assert w == w[..k] + [w[k]];
    LeafKeeps(n, m, place, x, w[..k], w[k], b);
    var m' := Written(m, cur, w[k], b);
    forall l, q | 1 <= l <= 3 && |q| < l && WayOk(n, q) ensures At(m', l, q) == At(m, l, q) {
      LeafAt(n, m, place, level, w[..k], w[k], b, l, q);
    }
  }

  lemma PoolTail(pool: seq<nat>)
    requires Distinct(pool) && pool != []
    ensures Distinct(pool[1..]) && forall i :: 0 <= i < |pool[1..]| ==> pool[1..][i] == pool[i + 1] != pool[0]
  {
  }

  lemma TreeShape(n: nat, m: BlockMap, place: map<nat, Place>)
    requires TreeOk(n, m, place)
    ensures Shape(m) && n > 0 && 0 !in place
  {
  }

  lemma SetDirect(n: nat, m: BlockMap, place: map<nat, Place>, x: nat, b: nat)
    requires TreeOk(n, m, place) && x < DIRECT
    ensures var m' := m.(direct := Put(m.direct, x, b));
      && TreeOk(n, m', place) && SameTrees(n, m, m')
      && forall y :: 0 <= y ==> Lookup(n, m', y) == if y == x then b else Lookup(n, m, y)
  {
    var m' := m.(direct := Put(m.direct, x, b));
    forall l, w | 1 <= l <= 3 ensures At(m', l, w) == At(m, l, w) {
      OtherRoot(m, m', l, w);
    }
    forall l, w | 1 <= l <= 3 && |w| < l && WayOk(n, w) ensures Rooted(n, m', place, l, w) {
      assert Rooted(n, m, place, l, w);
    }
  }

  function BlocksFor(blockSize: nat, size: nat): nat {
    if blockSize == 0 then 0 else (size + blockSize - 1) / blockSize
  }

  lemma LastBlock(b: nat, q: nat, r: nat)
    requires 0 < r <= b
    ensures BlocksFor(b, b * q + r) == q + 1
  {
    assert b * (q + 1) == b * q + b;
    DivMod(b, q + 1, r - 1);
  }

  lemma ExactBlocks(b: nat, q: nat)
    requires b > 0
    ensures BlocksFor(b, b * q) == q && b * q / b == q && b * q + b == b * (q + 1) == (q + 1) * b
  {
    DivMod(b, q, 0);
    DivMod(b, q, b - 1);
  }

  /** A size rounded up to whole blocks. */
  lemma WholeBlocks(b: nat, size: nat, whole: nat, x: nat)
    requires b > 0 && x == whole / b
    requires whole == if size % b != 0 then size + (b - size % b) else size
    ensures x == BlocksFor(b, size) && whole + b == (x + 1) * b && BlocksFor(b, whole + b) == x + 1
  {
    hide BlocksFor;
    var q, r := size / b, size % b;
    assert size == b * q + r;
    if r != 0 {
      LastBlock(b, q, r);
    }
    ExactBlocks(b, q);
    ExactBlocks(b, q + 1);
    ExactBlocks(b, q + 2);
    assert whole == if r != 0 then b * (q + 1) else b * q;
  }

  lemma MoreBlocks(blockSize: nat, a: nat, b: nat)
    requires blockSize > 0 && a <= b
    ensures BlocksFor(blockSize, a) <= BlocksFor(blockSize, b)
  {
    DivMono(a + blockSize - 1, b + blockSize - 1, blockSize);
  }

  /** The block that logical block `x` refers to, if there is one. */
  function Mapped(n: nat, m: BlockMap, x: nat): seq<nat>
    requires n > 0 && |m.direct| == DIRECT && |m.ind| == 3
  {
    if Lookup(n, m, x) == 0 then [] else [Lookup(n, m, x)]
  }

  /** The data blocks of logical blocks `a` to `b - 1`. */
  ghost function DataBlocks(n: nat, m: BlockMap, a: nat, b: nat): seq<nat>
    requires n > 0 && Shape(m)
    decreases b
  {
    if b <= a then [] else DataBlocks(n, m, a, b - 1) + Mapped(n, m, b - 1)
  }

  /** The references of logical blocks `a` to `b - 1` are gone, the others are as before. */
  ghost predicate Cut(n: nat, m: BlockMap, m': BlockMap, a: nat, b: nat)
    requires n > 0 && Shape(m) && Shape(m')
  {
    forall y: nat :: Lookup(n, m', y) == if a <= y < b then 0 else Lookup(n, m, y)
  }

  lemma NoData(n: nat, m: BlockMap, a: nat)
    requires n > 0 && Shape(m)
    ensures DataBlocks(n, m, a, a) == []
  {
  }

  lemma BeyondLimit(n: nat, x: nat)
    ensures LevelOf(n, x) == 4 <==> x >= End(n)
  {
    Limits(n);
  }

  lemma NoneBeyond(n: nat, m: BlockMap, x: nat)
    requires n > 0 && Shape(m) && LevelOf(n, x) == 4
    ensures Lookup(n, m, x) == 0
  {
  }

  lemma SameTreesSelf(n: nat, m: BlockMap)
    requires Shape(m)
    ensures SameTrees(n, m, m)
  {
  }

  lemma SameTreesJoin(n: nat, a: BlockMap, b: BlockMap, c: BlockMap)
    requires Shape(a) && Shape(b) && Shape(c) && SameTrees(n, a, b) && SameTrees(n, b, c)
    ensures SameTrees(n, a, c)
  {
  }

  // ----- the indirect blocks -----

  /** The nonzero references among the first `k`. */
  function Kids(s: seq<nat>, k: nat): seq<nat>
    requires k <= |s|
  {
    if k == 0 then [] else Kids(s, k - 1) + if s[k - 1] == 0 then [] else [s[k - 1]]
  }

  function BlockOf(mem: map<nat, seq<nat>>, a: nat): seq<nat> {
    if a in mem then mem[a] else []
  }

  /** For each of the first `k` references of a block: what its block refers to, then the block itself. */
  function SubKids(mem: map<nat, seq<nat>>, s: seq<nat>, k: nat): seq<nat>
    requires k <= |s|
  {
    if k == 0 then []
    else SubKids(mem, s, k - 1) +
         if s[k - 1] == 0 then [] else Kids(BlockOf(mem, s[k - 1]), |BlockOf(mem, s[k - 1])|) + [s[k - 1]]
  }

  /** All indirect blocks, in the order in which they are freed. */
  function IndirectBlocks(n: nat, m: BlockMap): seq<nat>
    requires |m.ind| == 3
  {
    var b1, b2 := BlockOf(m.mem, m.ind[1]), BlockOf(m.mem, m.ind[2]);
    (if m.ind[0] == 0 then [] else [m.ind[0]])
    + (if m.ind[1] == 0 then [] else Kids(b1, |b1|) + [m.ind[1]])
    + (if m.ind[2] == 0 then [] else SubKids(m.mem, b2, |b2|) + [m.ind[2]])
  }

  /** Free the blocks that an indirect block refers to. */
  method FreeEntries(s: seq<nat>) returns (freed: seq<nat>)
    ensures freed == Kids(s, |s|)
  {
    freed := [];
    var i := 0;
    while i < |s|
      invariant i <= |s| && freed == Kids(s, i)
    {
      if s[i] != 0 {
        freed := freed + [s[i]];
      }
      i := i + 1;
    }
  }

  /** Free the blocks below each reference of a doubly indirect block, and the blocks referred to. */
  method FreeBranches(mem: map<nat, seq<nat>>, block: seq<nat>) returns (freed: seq<nat>)
    requires forall i :: 0 <= i < |block| && block[i] != 0 ==> block[i] in mem
    ensures freed == SubKids(mem, block, |block|)
  {
    hide Kids, SubKids;
    freed := [];
    KidsNone(mem, block);
    var offset := 0;
    while offset < |block|
      invariant offset <= |block| && freed == SubKids(mem, block, offset)
    {
      KidsNext(mem, block, offset);
      if block[offset] != 0 {
        var kids := FreeEntries(mem[block[offset]]);
        freed := freed + (kids + [block[offset]]);
      }
      offset := offset + 1;
    }
  }

  lemma KidsNone(mem: map<nat, seq<nat>>, s: seq<nat>)
    ensures SubKids(mem, s, 0) == []
  {
  }

  lemma KidsNext(mem: map<nat, seq<nat>>, s: seq<nat>, k: nat)
    requires k < |s|
    ensures SubKids(mem, s, k + 1) == SubKids(mem, s, k) +
      if s[k] == 0 then [] else Kids(BlockOf(mem, s[k]), |BlockOf(mem, s[k])|) + [s[k]]
  {
  }

  /** The indirect blocks of the two deeper trees are in memory. */
  lemma Blocks3(n: nat, m: BlockMap, place: map<nat, Place>)
    requires TreeOk(n, m, place)
    ensures m.ind[1] != 0 ==> m.ind[1] in m.mem && |m.mem[m.ind[1]]| == n
    ensures m.ind[2] != 0 ==> m.ind[2] in m.mem && |m.mem[m.ind[2]]| == n
    ensures m.ind[2] != 0 ==> forall i :: 0 <= i < n && m.mem[m.ind[2]][i] != 0 ==> m.mem[m.ind[2]][i] in m.mem
  {
    assert Rooted(n, m, place, 2, []);
    assert Rooted(n, m, place, 3, []);
    if m.ind[2] != 0 {
      forall i | 0 <= i < n && m.mem[m.ind[2]][i] != 0 ensures m.mem[m.ind[2]][i] in m.mem {
        One(m, 3, i);
        assert Rooted(n, m, place, 3, [i]);
      }
    }
  }

  lemma One(m: BlockMap, l: nat, i: nat)
    requires Shape(m) && 1 <= l <= 3
    ensures At(m, l, [i]) == Entry(m.mem, m.ind[l - 1], i)
  {
    assert [i][..0] == [];
  }

  lemma Two(m: BlockMap, l: nat, i: nat, j: nat)
    requires Shape(m) && 1 <= l <= 3
    ensures At(m, l, [i, j]) == Entry(m.mem, At(m, l, [i]), j)
  {
    assert [i, j][..1] == [i];
  }

  // ----- each indirect block is freed once -----

  lemma {:induction false} InKids(s: seq<nat>, k: nat, a: nat)
    requires k <= |s|
    ensures a in Kids(s, k) <==> a != 0 && exists i :: 0 <= i < k && s[i] == a
  {
    if k > 0 {
      InKids(s, k - 1, a);
    }
  }

  lemma {:induction false} KidsDistinct(s: seq<nat>, k: nat)
    requires k <= |s| && forall i, j :: 0 <= i < j < |s| && s[i] != 0 ==> s[i] != s[j]
    ensures Distinct(Kids(s, k))
  {
    if k > 0 {
      KidsDistinct(s, k - 1);
      InKids(s, k - 1, s[k - 1]);
    }
  }

  lemma DistinctJoin(a: seq<nat>, b: seq<nat>)
    requires Distinct(a) && Distinct(b) && forall x :: x in a ==> x !in b
    ensures Distinct(a + b)
  {
    var c := a + b;
    forall i, j | 0 <= i < j < |c| ensures c[i] != c[j] {
      if i < |a| <= j {
        assert c[i] in a && c[j] in b;
      }
    }
  }

  /** The place of whatever an indirect block of the trees refers to. */
  lemma KidPlace(n: nat, m: BlockMap, place: map<nat, Place>, l: nat, w: seq<nat>, i: nat)
    requires TreeOk(n, m, place) && 1 <= l <= 3 && |w| + 1 < l && WayOk(n, w) && At(m, l, w) != 0 && i < n
    ensures At(m, l, w) in m.mem && |m.mem[At(m, l, w)]| == n
    ensures m.mem[At(m, l, w)][i] == At(m, l, w + [i])
    ensures var x := m.mem[At(m, l, w)][i]; x != 0 ==> x in place && place[x] == Place(l, w + [i])
  {
    assert Rooted(n, m, place, l, w);
    assert (w + [i])[..|w|] == w;
    assert Rooted(n, m, place, l, w + [i]);
  }

  lemma KidsOf(n: nat, m: BlockMap, place: map<nat, Place>, l: nat, w: seq<nat>, a: nat)
    requires TreeOk(n, m, place) && 1 <= l <= 3 && |w| + 1 < l && WayOk(n, w) && a == At(m, l, w) != 0
    ensures a in m.mem && |m.mem[a]| == n && Distinct(Kids(m.mem[a], n))
    ensures forall i :: 0 <= i < n && m.mem[a][i] != 0 ==> m.mem[a][i] in Kids(m.mem[a], n)
    ensures forall x :: x in Kids(m.mem[a], n) ==>
      && x in place && place[x].level == l && |place[x].way| == |w| + 1 && place[x].way[..|w|] == w
      && IsIndirect(n, m, x)
  {
    assert Rooted(n, m, place, l, w);
    var s := m.mem[a];
    forall i | 0 <= i < n ensures s[i] != 0 ==> s[i] in place && place[s[i]] == Place(l, w + [i]) {
      KidPlace(n, m, place, l, w, i);
    }
    forall i, j | 0 <= i < j < |s| && s[i] != 0 ensures s[i] != s[j] {
      assert (w + [i])[|w|] != (w + [j])[|w|];
    }
    KidsDistinct(s, n);
    forall i | 0 <= i < n && s[i] != 0 ensures s[i] in Kids(s, n) {
      InKids(s, n, s[i]);
    }
    forall x | x in Kids(s, n)
      ensures x in place && place[x].level == l && |place[x].way| == |w| + 1 && place[x].way[..|w|] == w
      ensures IsIndirect(n, m, x)
    {
      InKids(s, n, x);
      var i :| 0 <= i < n && s[i] == x;
      KidPlace(n, m, place, l, w, i);
      assert (w + [i])[..|w|] == w && WayOk(n, w + [i]);
      WayIndirect(n, m, l, w + [i]);
    }
  }

  /** The list for one branch of the deepest tree. */
  ghost function Twig(m: BlockMap, i: nat): seq<nat>
    requires Shape(m)
  {
    var b := BlockOf(m.mem, At(m, 3, [i]));
    if At(m, 3, [i]) == 0 then [] else Kids(b, |b|) + [At(m, 3, [i])]
  }

  lemma TwigOf(n: nat, m: BlockMap, place: map<nat, Place>, i: nat)
    requires TreeOk(n, m, place) && i < n
    ensures Distinct(Twig(m, i))
    ensures forall x :: x in Twig(m, i) ==>
      x in place && place[x].level == 3 && place[x].way != [] && place[x].way[0] == i
    ensures At(m, 3, [i]) != 0 ==> At(m, 3, [i]) in Twig(m, i)
    ensures forall j :: 0 <= j < n && At(m, 3, [i, j]) != 0 ==> At(m, 3, [i, j]) in Twig(m, i)
    ensures forall x :: x in Twig(m, i) ==> IsIndirect(n, m, x)
  {
    var a := At(m, 3, [i]);
    assert WayOk(n, [i]);
    forall j | 0 <= j < n ensures At(m, 3, [i, j]) == Entry(m.mem, a, j) {
      Two(m, 3, i, j);
    }
    if a != 0 {
      KidsOf(n, m, place, 3, [i], a);
      assert Rooted(n, m, place, 3, [i]);
      WayIndirect(n, m, 3, [i]);
      hide TreeOk, IsIndirect, Kids, WayOk, At;
      var kids := Kids(m.mem[a], n);
      DistinctJoin(kids, [a]);
      forall x | x in kids ensures place[x].way[0] == i {
        assert place[x].way[..1] == [i];
      }
    }
  }

  /** The list holds indirect blocks of the deepest tree, below its first `k` references. */
  ghost predicate Branches(n: nat, m: BlockMap, place: map<nat, Place>, list: seq<nat>, k: nat)
    requires Shape(m)
  {
    && Distinct(list)
    && (forall x :: x in list ==>
          && x in place && place[x].level == 3 && place[x].way != [] && place[x].way[0] < k
          && IsIndirect(n, m, x))
    && (forall i :: 0 <= i < k ==> forall x :: x in Twig(m, i) ==> x in list)
  }

  lemma {:induction false} Twigs(n: nat, m: BlockMap, place: map<nat, Place>, k: nat)
    requires TreeOk(n, m, place) && m.ind[2] != 0 && m.ind[2] in m.mem && |m.mem[m.ind[2]]| == n && k <= n
    ensures Branches(n, m, place, SubKids(m.mem, m.mem[m.ind[2]], k), k)
  {
    hide TreeOk, SubKids, Twig, IsIndirect, Kids, Branches, Distinct, At, Shape;
    TreeShape(n, m, place);
    NoBranches(n, m, place);
    KidsNone(m.mem, m.mem[m.ind[2]]);
    if k > 0 {
      Twigs(n, m, place, k - 1);
      TwigNext(m, k - 1);
      TwigMore(n, m, place, SubKids(m.mem, m.mem[m.ind[2]], k - 1), k - 1);
    }
  }

  lemma TwigMore(n: nat, m: BlockMap, place: map<nat, Place>, list: seq<nat>, k: nat)
    requires TreeOk(n, m, place) && Branches(n, m, place, list, k) && k < n
    ensures Branches(n, m, place, list + Twig(m, k), k + 1)
  {
    hide TreeOk, Branches, IsIndirect, Twig, Distinct;
    TreeShape(n, m, place);
    TwigOf(n, m, place, k);
    MoreBranches(n, m, place, list, k);
  }

  lemma TwigNext(m: BlockMap, k: nat)
    requires Shape(m) && m.ind[2] != 0 && m.ind[2] in m.mem && k < |m.mem[m.ind[2]]|
    ensures SubKids(m.mem, m.mem[m.ind[2]], k + 1) == SubKids(m.mem, m.mem[m.ind[2]], k) + Twig(m, k)
  {
    One(m, 3, k);
  }

  lemma NoBranches(n: nat, m: BlockMap, place: map<nat, Place>)
    requires Shape(m)
    ensures Branches(n, m, place, [], 0)
  {
  }

  lemma MoreBranches(n: nat, m: BlockMap, place: map<nat, Place>, list: seq<nat>, k: nat)
    requires Shape(m) && Branches(n, m, place, list, k) && Distinct(Twig(m, k))
    requires forall x :: x in Twig(m, k) ==>
      x in place && place[x].level == 3 && place[x].way != [] && place[x].way[0] == k
    requires forall x :: x in Twig(m, k) ==> IsIndirect(n, m, x)
    ensures Branches(n, m, place, list + Twig(m, k), k + 1)
  {
    hide IsIndirect, Twig;
    DistinctJoin(list, Twig(m, k));
  }

  /**
   * Freeing the inode frees exactly the indirect blocks of its trees, each of them once.
   */
  lemma IndirectBlocksAre(n: nat, m: BlockMap, place: map<nat, Place>)
    requires TreeOk(n, m, place)
    ensures Distinct(IndirectBlocks(n, m))
    ensures forall x :: x in IndirectBlocks(n, m) <==> IsIndirect(n, m, x)
  {
    hide TreeOk, At, Distinct, Single, Double, Triple, IsIndirect;
    TreeShape(n, m, place);
    Part1(n, m, place);
    Part2(n, m, place);
    Part3(n, m, place);
    DistinctJoin(Single(m), Double(m));
    DistinctJoin(Single(m) + Double(m), Triple(m));
    PartsJoin(n, m);
    forall x | IsIndirect(n, m, x) ensures x in Single(m) + Double(m) + Triple(m) {
      Somewhere(n, m, x);
    }
  }

  ghost function Single(m: BlockMap): seq<nat>
    requires Shape(m)
  {
    if m.ind[0] == 0 then [] else [m.ind[0]]
  }

  ghost function Double(m: BlockMap): seq<nat>
    requires Shape(m)
  {
    var b := BlockOf(m.mem, m.ind[1]);
    if m.ind[1] == 0 then [] else Kids(b, |b|) + [m.ind[1]]
  }

  ghost function Triple(m: BlockMap): seq<nat>
    requires Shape(m)
  {
    var b := BlockOf(m.mem, m.ind[2]);
    if m.ind[2] == 0 then [] else SubKids(m.mem, b, |b|) + [m.ind[2]]
  }

  lemma PartsJoin(n: nat, m: BlockMap)
    requires Shape(m)
    ensures IndirectBlocks(n, m) == Single(m) + Double(m) + Triple(m)
  {
  }

  lemma Part1(n: nat, m: BlockMap, place: map<nat, Place>)
    requires TreeOk(n, m, place)
    ensures Distinct(Single(m))
    ensures forall x :: x in Single(m) ==> x in place && place[x].level == 1 && IsIndirect(n, m, x)
    ensures m.ind[0] != 0 ==> m.ind[0] in Single(m)
  {
    assert Rooted(n, m, place, 1, []);
    assert WayOk(n, []) && At(m, 1, []) == m.ind[0];
  }

  lemma Part2(n: nat, m: BlockMap, place: map<nat, Place>)
    requires TreeOk(n, m, place)
    ensures Distinct(Double(m))
    ensures forall x :: x in Double(m) ==> x in place && place[x].level == 2 && IsIndirect(n, m, x)
    ensures m.ind[1] != 0 ==> m.ind[1] in Double(m)
    ensures forall i :: 0 <= i < n && At(m, 2, [i]) != 0 ==> At(m, 2, [i]) in Double(m)
  {
    assert Rooted(n, m, place, 2, []) && At(m, 2, []) == m.ind[1];
    hide TreeOk, At, IsIndirect, Kids, Rooted, WayOk;
    if m.ind[1] != 0 {
      RootKids(n, m, place);
      DistinctJoin(Kids(m.mem[m.ind[1]], n), [m.ind[1]]);
      RootIndirect(n, m, 2);
    } else {
      forall i | 0 <= i < n ensures At(m, 2, [i]) == 0 {
        One(m, 2, i);
      }
    }
  }

  lemma RootKids(n: nat, m: BlockMap, place: map<nat, Place>)
    requires TreeOk(n, m, place) && m.ind[1] != 0
    ensures m.ind[1] in m.mem && |m.mem[m.ind[1]]| == n
    ensures var kids := Kids(m.mem[m.ind[1]], n);
      && Distinct(kids)
      && (forall x :: x in kids ==> x in place && place[x].level == 2 && |place[x].way| == 1 && IsIndirect(n, m, x))
      && (forall i :: 0 <= i < n && At(m, 2, [i]) != 0 ==> At(m, 2, [i]) in kids)
  {
    assert At(m, 2, []) == m.ind[1];
    NoWay(n);
    KidsOf(n, m, place, 2, [], m.ind[1]);
    hide TreeOk, IsIndirect, Kids, WayOk, At, Distinct;
    var kids := Kids(m.mem[m.ind[1]], n);
    forall i | 0 <= i < n && At(m, 2, [i]) != 0 ensures At(m, 2, [i]) in kids {
      One(m, 2, i);
    }
  }

  lemma NoWay(n: nat)
    ensures WayOk(n, [])
  {
  }

  lemma WayIndirect(n: nat, m: BlockMap, l: nat, w: seq<nat>)
    requires Shape(m) && 1 <= l <= 3 && |w| < l && WayOk(n, w) && At(m, l, w) != 0
    ensures IsIndirect(n, m, At(m, l, w))
  {
  }

  lemma Part3(n: nat, m: BlockMap, place: map<nat, Place>)
    requires TreeOk(n, m, place)
    ensures Distinct(Triple(m))
    ensures forall x :: x in Triple(m) ==> x in place && place[x].level == 3 && IsIndirect(n, m, x)
    ensures m.ind[2] != 0 ==> m.ind[2] in Triple(m)
    ensures forall i :: 0 <= i < n && At(m, 3, [i]) != 0 ==> At(m, 3, [i]) in Triple(m)
    ensures forall i, j :: 0 <= i < n && 0 <= j < n && At(m, 3, [i, j]) != 0 ==> At(m, 3, [i, j]) in Triple(m)
  {
    hide SubKids, Twig, IsIndirect;
    assert Rooted(n, m, place, 3, []);
    if m.ind[2] != 0 {
      Twigs(n, m, place, n);
      RootIndirect(n, m, 3);
      DistinctJoin(SubKids(m.mem, m.mem[m.ind[2]], n), [m.ind[2]]);
      forall i | 0 <= i < n
        ensures At(m, 3, [i]) != 0 ==> At(m, 3, [i]) in Twig(m, i)
        ensures forall j :: 0 <= j < n && At(m, 3, [i, j]) != 0 ==> At(m, 3, [i, j]) in Twig(m, i)
      {
        TwigOf(n, m, place, i);
      }
    } else {
      forall i, j | 0 <= i < n && 0 <= j < n ensures At(m, 3, [i]) == 0 && At(m, 3, [i, j]) == 0 {
        One(m, 3, i);
        Two(m, 3, i, j);
      }
    }
  }

  lemma RootIndirect(n: nat, m: BlockMap, l: nat)
    requires Shape(m) && 1 <= l <= 3 && m.ind[l - 1] != 0
    ensures IsIndirect(n, m, m.ind[l - 1])
  {
    assert WayOk(n, []) && At(m, l, []) == m.ind[l - 1];
  }

  /** The possible places of an indirect block. */
  lemma Somewhere(n: nat, m: BlockMap, x: nat)
    requires Shape(m) && IsIndirect(n, m, x)
    ensures x != 0
    ensures x == m.ind[0] || x == m.ind[1] || x == m.ind[2]
      || (exists i :: 0 <= i < n && (At(m, 2, [i]) == x || At(m, 3, [i]) == x))
      || exists i, j :: 0 <= i < n && 0 <= j < n && At(m, 3, [i, j]) == x
  {
    var l, w :| 1 <= l <= 3 && |w| < l && WayOk(n, w) && At(m, l, w) == x;
    if w != [] {
      if |w| == 1 {
        assert w == [w[0]];
      } else {
        assert w == [w[0], w[1]];
      }
    }
  }

  // ----- the whole inode -----

  ghost predicate IsData(n: nat, m: BlockMap, a: nat)
    requires n > 0 && Shape(m)
  {
    a != 0 && exists x: nat :: Lookup(n, m, x) == a
  }

  /** No block is used twice. */
  ghost predicate Tidy(n: nat, m: BlockMap, acl: nat)
    requires n > 0 && Shape(m)
  {
    && (forall x: nat, y: nat :: Lookup(n, m, x) == Lookup(n, m, y) != 0 ==> x == y)
    && (forall x: nat :: Lookup(n, m, x) != 0 ==> !IsIndirect(n, m, Lookup(n, m, x)))
    && (acl != 0 ==> !IsIndirect(n, m, acl) && !IsData(n, m, acl))
  }

  /** No logical block from number `count` on is mapped. */
  ghost predicate EndsAt(n: nat, m: BlockMap, count: nat)
    requires n > 0 && Shape(m)
  {
    forall x: nat :: Lookup(n, m, x) != 0 ==> x < count
  }

  ghost predicate UsedBy(n: nat, m: BlockMap, acl: nat, a: nat)
    requires n > 0 && Shape(m)
  {
    IsData(n, m, a) || IsIndirect(n, m, a) || (a == acl && acl != 0)
  }

  lemma {:induction false} InData(n: nat, m: BlockMap, a: nat, b: nat, z: nat)
    requires n > 0 && Shape(m)
    ensures z in DataBlocks(n, m, a, b) <==> z != 0 && exists x: nat :: a <= x < b && Lookup(n, m, x) == z
    decreases b
  {
    hide Lookup;
    if a < b {
      InData(n, m, a, b - 1, z);
    }
  }

  lemma {:induction false} DataDistinct(n: nat, m: BlockMap, a: nat, b: nat)
    requires n > 0 && Shape(m)
    requires forall x: nat, y: nat :: Lookup(n, m, x) == Lookup(n, m, y) != 0 ==> x == y
    ensures Distinct(DataBlocks(n, m, a, b))
    decreases b
  {
    hide Lookup;
    if a < b {
      DataDistinct(n, m, a, b - 1);
      InData(n, m, a, b - 1, Lookup(n, m, b - 1));
      DistinctJoin(DataBlocks(n, m, a, b - 1), Mapped(n, m, b - 1));
    }
  }

  lemma SameIndirect(n: nat, m: BlockMap, m': BlockMap, a: nat)
    requires Shape(m) && Shape(m') && SameTrees(n, m, m')
    ensures IsIndirect(n, m, a) <==> IsIndirect(n, m', a)
  {
    if a != 0 && IsIndirect(n, m, a) {
      var l, w :| 1 <= l <= 3 && |w| < l && WayOk(n, w) && At(m, l, w) == a;
      assert At(m', l, w) == a;
    }
    if a != 0 && IsIndirect(n, m', a) {
      var l, w :| 1 <= l <= 3 && |w| < l && WayOk(n, w) && At(m', l, w) == a;
      assert At(m, l, w) == a;
    }
  }

  /** What deleting a file of `count` blocks passes to the allocator. */
  ghost function Freed(n: nat, m: BlockMap, m': BlockMap, acl: nat, count: nat): seq<nat>
    requires n > 0 && Shape(m) && Shape(m')
  {
    DataBlocks(n, m, 0, count) + (IndirectBlocks(n, m') + if acl == 0 then [] else [acl])
  }

  /**
   * Each block once, and only blocks the file uses; all of them if and only if no logical block
   * behind the end of the file is mapped.
   */
  lemma FreedInAll(n: nat, m: BlockMap, place: map<nat, Place>, acl: nat, count: nat, m': BlockMap)
    requires TreeOk(n, m, place) && TreeOk(n, m', place) && SameTrees(n, m, m') && Tidy(n, m, acl)
    ensures var freed := Freed(n, m, m', acl, count);
      && Distinct(freed) && (forall a :: a in freed ==> UsedBy(n, m, acl, a))
      && (forall x: nat :: x >= count && Lookup(n, m, x) != 0 ==> Lookup(n, m, x) !in freed)
      && ((forall a :: UsedBy(n, m, acl, a) ==> a in freed) <==> EndsAt(n, m, count))
  {
    hide TreeOk, SameTrees, Lookup, IsIndirect, IndirectBlocks, DataBlocks;
    TreeShape(n, m, place);
    TreeShape(n, m', place);
    var data, ind := DataBlocks(n, m, 0, count), IndirectBlocks(n, m');
    IndirectBlocksAre(n, m', place);
    DataDistinct(n, m, 0, count);
    forall a ensures a in data <==> a != 0 && exists x: nat :: 0 <= x < count && Lookup(n, m, x) == a {
      InData(n, m, 0, count, a);
    }
    forall a ensures a in ind <==> IsIndirect(n, m, a) {
      SameIndirect(n, m, m', a);
    }
    var rest := if acl == 0 then [] else [acl];
    DistinctJoin(ind, rest);
    DistinctJoin(data, ind + rest);
    LeakedBehind(n, m, acl, count, data, ind, rest);
  }

  lemma LeakedBehind(n: nat, m: BlockMap, acl: nat, count: nat, data: seq<nat>, ind: seq<nat>, rest: seq<nat>)
    requires n > 0 && Shape(m) && Tidy(n, m, acl) && rest == (if acl == 0 then [] else [acl])
    requires forall a :: a in data <==> a != 0 && exists x: nat :: 0 <= x < count && Lookup(n, m, x) == a
    requires forall a :: a in ind <==> IsIndirect(n, m, a)
    ensures var freed := data + (ind + rest);
      && (forall x: nat :: x >= count && Lookup(n, m, x) != 0 ==> Lookup(n, m, x) !in freed)
      && ((forall a :: UsedBy(n, m, acl, a) ==> a in freed) <==> EndsAt(n, m, count))
  {
    hide Lookup, IsIndirect;
    var freed := data + (ind + rest);
    forall x: nat | x >= count && Lookup(n, m, x) != 0 ensures Lookup(n, m, x) !in freed {
      assert IsData(n, m, Lookup(n, m, x));
    }
    if !EndsAt(n, m, count) {
      var x: nat :| Lookup(n, m, x) != 0 && x >= count;
      assert UsedBy(n, m, acl, Lookup(n, m, x)) && Lookup(n, m, x) !in freed;
    }
  }

  /**
   * Truncate a file to nothing and free its inode.  Every block of the file is freed exactly if
   * nothing is mapped behind its end.
   */
  method DeleteInode(f: Inode) returns (err: Err, freed: seq<nat>)
    requires f.Valid() && Tidy(f.n, f.m, f.acl)
    modifies f
    ensures err == if BlocksFor(f.blockSize, old(f.size)) <= End(f.n) then EOK else EIO
    ensures err == EOK ==>
      && Distinct(freed) && (forall a :: a in freed ==> UsedBy(f.n, old(f.m), old(f.acl), a))
      && ((forall a :: UsedBy(f.n, old(f.m), old(f.acl), a) ==> a in freed) <==>
            EndsAt(f.n, old(f.m), BlocksFor(f.blockSize, old(f.size))))
  {
    hide TreeOk, SameTrees, Lookup, UsedBy, Tidy, Distinct, Cut, DataBlocks, IndirectBlocks, BlocksFor, EndsAt, End;
    ghost var m0, acl0 := f.m, f.acl;
    NoBlocks(f.blockSize);
    var data;
    err, data := f.Truncate(0);
    if err != EOK {
      return err, data;
    }
    ghost var m1 := f.m;
    freed := f.FreeInode();
    FreedInAll(f.n, m0, f.place, acl0, BlocksFor(f.blockSize, old(f.size)), m1);
    freed := data + freed;
  }

  lemma NoBlocks(blockSize: nat)
    ensures BlocksFor(blockSize, 0) == 0
  {
  }

  lemma NoIndirect(n: nat, m: BlockMap)
    requires TreeOk(n, m, map[])
    ensures forall a :: !IsIndirect(n, m, a)
  {
    forall a | a != 0 ensures !IsIndirect(n, m, a) {
      forall l, w | 1 <= l <= 3 && |w| < l && WayOk(n, w) ensures At(m, l, w) != a {
        assert Rooted(n, m, map[], l, w);
      }
    }
  }

  /**
   * An inode found on disk with size 0 and its first block mapped (`Append` and `Truncate` leave none
   * like this): deleting it does not free that block.
   */
  method LeakedBlock() returns (f: Inode, ghost before: BlockMap, freed: seq<nat>)
    ensures Shape(before) && f.n > 0 && UsedBy(f.n, before, 0, 77) && forall a :: a !in freed
  {
    f := new Inode(256, 1024, []);
    LevelCases(256, f.m, 0);
    AnswerAll(f.n, f.m);
    var err := f.SetBlock(0, 77);
    AnswerAll(f.n, f.m);
    before := f.m;
    TreeShape(f.n, f.m, f.place);
    NoIndirect(f.n, f.m);
    hide Lookup, TreeOk, IsIndirect;
    assert Lookup(f.n, f.m, 0) == 77;
    assert IsData(f.n, f.m, 77);
    NoBlocks(f.blockSize);
    assert forall a :: UsedBy(f.n, before, 0, a) ==> a == 77;
    assert !EndsAt(f.n, before, 0);
    err, freed := DeleteInode(f);
    assert err == EOK && 77 !in freed;
  }
}
