/** The block allocator: groups of blocks with a bitmap each, and free counts per group and in total. */
module Balloc {
  import opened Bitmap
  import opened Arithmetic

  datatype Err = EOK | ENOSPC

  /** Block size in bytes, blocks per group, whether block 0 lies outside the groups, number of blocks. */
  datatype Geometry = Geometry(blockSize: nat, perGroup: nat, shifted: bool, total: nat)

  ghost predicate GeometryOk(q: Geometry) {
    0 < q.perGroup <= 8 * q.blockSize && q.total > 0
  }

  function GroupCnt(q: Geometry): nat
    requires q.perGroup > 0
  {
    q.total / q.perGroup + if q.total % q.perGroup != 0 then 1 else 0
  }

  function BlocksIn(q: Geometry, g: nat): int
    requires q.perGroup > 0
  {
    if g < GroupCnt(q) - 1 then q.perGroup else q.total - (GroupCnt(q) - 1) * q.perGroup
  }

  /** The groups tile the device: all of them are full but for the last one, which is not empty. */
  lemma GroupSizes(q: Geometry, g: nat)
    requires GeometryOk(q)
    ensures GroupCnt(q) > 0 && 0 < BlocksIn(q, g) <= q.perGroup
    ensures (GroupCnt(q) - 1) * q.perGroup < q.total <= GroupCnt(q) * q.perGroup
    ensures g + 1 < GroupCnt(q) ==> BlocksIn(q, g) == q.perGroup && g * q.perGroup + q.perGroup < q.total
    ensures g + 1 == GroupCnt(q) ==> g * q.perGroup + BlocksIn(q, g) == q.total
  {
    var p, n := q.perGroup, q.total / q.perGroup;
    assert q.total == n * p + q.total % p;
    if q.total % p != 0 {
      assert (GroupCnt(q) - 1) * p == n * p && (n + 1) * p == n * p + p;
    } else {
      assert n * p == (n - 1) * p + p;
      assert n > 0;
    }
    if g + 1 < GroupCnt(q) {
      MulMono(g + 1, GroupCnt(q) - 1, p);
      assert (g + 1) * p == g * p + p;
    }
  }

  // ----- addresses -----

  function Shift(q: Geometry, a: nat): nat {
    if q.shifted && a > 0 then a - 1 else a
  }

  function GroupOf(q: Geometry, a: nat): nat
    requires q.perGroup > 0
  {
    Shift(q, a) / q.perGroup
  }

  function IndexOf(q: Geometry, a: nat): nat
    requires q.perGroup > 0
  {
    Shift(q, a) % q.perGroup
  }

  function Address(q: Geometry, g: nat, i: nat): nat {
    q.perGroup * g + i + if q.shifted then 1 else 0
  }

  function FirstBlock(q: Geometry, g: nat): nat {
    (if q.shifted then 1 else 0) + g * q.perGroup
  }

  /** Bit `i` of group `g` stands for block `a`. */
  predicate StandsFor(q: Geometry, g: nat, i: nat, a: nat) {
    i < q.perGroup && a == (if q.shifted then 1 else 0) + g * q.perGroup + i
  }

  /** Group and index determine the address and the other way round. */
  lemma AddressInverse(q: Geometry, g: nat, i: nat)
    requires i < q.perGroup
    ensures GroupOf(q, Address(q, g, i)) == g && IndexOf(q, Address(q, g, i)) == i
    ensures StandsFor(q, g, i, Address(q, g, i)) && FirstBlock(q, g) == Address(q, g, 0)
  {
    DivMod(q.perGroup, g, i);
  }

  lemma AddressOf(q: Geometry, a: nat)
    requires q.perGroup > 0 && (q.shifted ==> a > 0)
    ensures IndexOf(q, a) < q.perGroup && Address(q, GroupOf(q, a), IndexOf(q, a)) == a
    ensures StandsFor(q, GroupOf(q, a), IndexOf(q, a), a)
  {
  }

  lemma FirstIndex(q: Geometry, g: nat)
    requires q.perGroup > 0
    ensures IndexOf(q, FirstBlock(q, g)) == 0
  {
    DivMod(q.perGroup, g, 0);
  }

  /**
   * A block of a group is on the device, except for the last one of the last group where block 0 lies
   * outside the groups: the size of that group is counted from all blocks, block 0 included.
   */
  lemma OnDevice(q: Geometry, g: nat, i: nat, a: nat)
    requires GeometryOk(q) && g < GroupCnt(q) && i < BlocksIn(q, g) && StandsFor(q, g, i, a)
    ensures a < q.total <==> !(q.shifted && g + 1 == GroupCnt(q) && i + 1 == BlocksIn(q, g))
  {
    GroupSizes(q, g);
  }

  /** Blocks 1 to 8192 are the first group; the second one has a bit for block 8193, which does not exist. */
  lemma BehindDevice()
    ensures var q := Geometry(1024, 8192, true, 8193);
      GeometryOk(q) && GroupCnt(q) == 2 && BlocksIn(q, 1) == 1 && StandsFor(q, 1, 0, 8193) && 8193 >= q.total
  {
  }

  // ----- groups -----

  datatype Group = Group(bits: seq<bool>, free: int)

  function Total(groups: seq<Group>): int {
    if groups == [] then 0 else groups[0].free + Total(groups[1..])
  }

  lemma {:induction false} TotalPut(groups: seq<Group>, g: nat, x: Group)
    requires g < |groups|
    ensures Total(groups[g := x]) == Total(groups) - groups[g].free + x.free
  {
    if g == 0 {
      assert groups[g := x][1..] == groups[1..];
    } else {
      TotalPut(groups[1..], g - 1, x);
      assert groups[g := x][1..] == groups[1..][g - 1 := x];
    }
  }

  /** The free count is the number of clear bits, and bits behind the group's blocks are set. */
  ghost predicate GroupOk(q: Geometry, g: nat, x: Group)
    requires GeometryOk(q)
  {
    && |x.bits| == 8 * q.blockSize && 0 < BlocksIn(q, g) <= q.perGroup
    && x.free == Clear(x.bits, BlocksIn(q, g))
    && forall i :: BlocksIn(q, g) <= i < |x.bits| ==> x.bits[i]
  }

  ghost predicate GroupsOk(q: Geometry, groups: seq<Group>) {
    && GeometryOk(q) && |groups| == GroupCnt(q)
    && forall g :: 0 <= g < |groups| ==> GroupOk(q, g, groups[g])
  }

  ghost predicate IsFree(q: Geometry, groups: seq<Group>, g: nat, i: nat)
    requires q.perGroup > 0
  {
    g < |groups| && i < BlocksIn(q, g) && i < |groups[g].bits| && !groups[g].bits[i]
  }

  /** Bit `i` is the first one from `from` on that is free in group `g`. */
  ghost predicate FirstFree(q: Geometry, groups: seq<Group>, g: nat, from: nat, i: nat)
    requires q.perGroup > 0
  {
    IsFree(q, groups, g, i) && from <= i && forall k :: from <= k < i ==> !IsFree(q, groups, g, k)
  }

  /** How many groups lie between group `a` and the next time group `g` comes, going round. */
  function Ahead(a: nat, g: nat, n: nat): int {
    if g > a then g - a - 1 else g + n - a - 1
  }

  /**
   * The choice for a goal at index `idx` of group `bg`: the first free block from there on in that
   * group, or else the first one of the next group that has any.
   */
  ghost predicate Nearest(q: Geometry, groups: seq<Group>, bg: nat, idx: nat, g: nat, i: nat)
    requires q.perGroup > 0
  {
    || (g == bg && FirstFree(q, groups, bg, idx, i))
    || (&& FirstFree(q, groups, g, 0, i) && (forall k :: idx <= k ==> !IsFree(q, groups, bg, k))
        && forall h: nat, k: nat :: h < |groups| && Ahead(bg, h, |groups|) < Ahead(bg, g, |groups|) ==>
             !IsFree(q, groups, h, k))
  }

  /** Group `g` with bit `i` set, resp. clear, and its count adjusted. */
  function Taken(x: Group, i: nat): Group
    requires i < |x.bits|
  {
    Group(x.bits[i := true], x.free - 1)
  }

  function Given(x: Group, i: nat): Group
    requires i < |x.bits|
  {
    Group(x.bits[i := false], x.free + 1)
  }

  lemma TakeKeeps(q: Geometry, groups: seq<Group>, g: nat, i: nat)
    requires GroupsOk(q, groups) && IsFree(q, groups, g, i)
    ensures GroupsOk(q, groups[g := Taken(groups[g], i)])
    ensures Total(groups[g := Taken(groups[g], i)]) == Total(groups) - 1
  {
    assert GroupOk(q, g, groups[g]);
    ClearPut(groups[g].bits, i, true, BlocksIn(q, g));
    TotalPut(groups, g, Taken(groups[g], i));
  }

  lemma GiveKeeps(q: Geometry, groups: seq<Group>, g: nat, i: nat)
    requires GroupsOk(q, groups) && g < |groups| && i < BlocksIn(q, g) && i < |groups[g].bits| && groups[g].bits[i]
    ensures GroupsOk(q, groups[g := Given(groups[g], i)])
    ensures Total(groups[g := Given(groups[g], i)]) == Total(groups) + 1
  {
    assert GroupOk(q, g, groups[g]);
    ClearPut(groups[g].bits, i, false, BlocksIn(q, g));
    TotalPut(groups, g, Given(groups[g], i));
  }

  /** A group has a free block exactly if its count is not 0. */
  lemma CountSays(q: Geometry, groups: seq<Group>, g: nat)
    requires GroupsOk(q, groups) && g < |groups|
    ensures groups[g].free >= 0
    ensures groups[g].free == 0 <==> forall i :: 0 <= i < BlocksIn(q, g) ==> !IsFree(q, groups, g, i)
  {
    assert GroupOk(q, g, groups[g]);
    ClearZero(groups[g].bits, BlocksIn(q, g));
    if groups[g].free == 0 {
    } else {
      var i :| 0 <= i < BlocksIn(q, g) && !groups[g].bits[i];
      assert IsFree(q, groups, g, i);
    }
  }

  function RoundUp64(i: nat): nat {
    (i + 63) / 64 * 64
  }

  /** The scan near the goal has seen every bit of an unaligned beginning, so the search reports a clear bit. */
  lemma HeadSeen(bits: seq<bool>, idx: nat, end: nat, blks: nat)
    requires idx < blks <= |bits| && end == (if RoundUp64(idx) > blks then blks else RoundUp64(idx))
    requires bits[idx] && forall i :: idx < i < end ==> bits[i]
    ensures FirstClear(bits, idx, blks) < blks ==> Answer(bits, idx, blks) == FirstClear(bits, idx, blks)
  {
    assert RoundUp(idx) <= RoundUp64(idx) by {
      Round8(idx);
    }
  }

  lemma Round8(i: nat)
    ensures (i + 7) / 8 * 8 <= (i + 63) / 64 * 64
  {
    var d := (i + 63) / 64;
    assert i <= 64 * d;
    assert (i + 7) / 8 <= 8 * d;
  }

  class Allocator {
    const q: Geometry
    var groups: seq<Group>
    /** Free blocks according to the superblock. */
    var freeCount: int
    /** 512-byte sectors of the inode that blocks are allocated for. */
    var inodeBlocks: int

    ghost predicate Valid()
      reads this
    {
      GroupsOk(q, groups) && freeCount == Total(groups)
    }

    constructor (q: Geometry, groups: seq<Group>)
      requires GroupsOk(q, groups)
      ensures Valid() && this.q == q && this.groups == groups
    {
      this.q, this.groups := q, groups;
      freeCount, inodeBlocks := Total(groups), 0;
    }

    /** Set the bit of a free block and adjust the three counts. */
    method Take(g: nat, i: nat)
      requires Valid() && IsFree(q, groups, g, i)
      modifies this
      ensures Valid() && groups == old(groups)[g := Taken(old(groups)[g], i)]
      ensures inodeBlocks == old(inodeBlocks) + q.blockSize / 512
    {
      TakeKeeps(q, groups, g, i);
      hide GroupsOk, Total, BlocksIn;
      groups := groups[g := Taken(groups[g], i)];
      freeCount := freeCount - 1;
      inodeBlocks := inodeBlocks + q.blockSize / 512;
    }

    /** Look for a free block in the goal's group: the goal, near the goal, behind the goal. */
    method SearchGoalGroup(g: nat, idx: nat) returns (found: bool, i: nat)
      requires Valid() && g < |groups| && idx < BlocksIn(q, g)
      ensures found ==> FirstFree(q, groups, g, idx, i)
      ensures !found ==> forall k :: idx <= k ==> !IsFree(q, groups, g, k)
    {
      assert GroupOk(q, g, groups[g]);
      var bits := groups[g].bits;
      if !bits[idx] {
        return true, idx;
      }
      var blks: nat := BlocksIn(q, g);
      var end := RoundUp64(idx);
      if end > blks {
        end := blks;
      }
      i := idx + 1;
      while i < end
        invariant idx < i && (i <= end || i == idx + 1)
        invariant forall k :: idx <= k < i && k < end ==> bits[k]
      {
        if !bits[i] {
          return true, i;
        }
        i := i + 1;
      }
      HeadSeen(bits, idx, end, blks);
      found, i := FindClear(bits, idx, blks);
    }

    /** Allocate a block, as near to the goal as possible. */
    method AllocBlock(goal: nat) returns (err: Err, block: nat)
      requires Valid() && GroupOf(q, goal) < |groups| && IndexOf(q, goal) < BlocksIn(q, GroupOf(q, goal))
      modifies this
      ensures Valid()
      ensures err == ENOSPC ==> groups == old(groups) && inodeBlocks == old(inodeBlocks) && freeCount == 0
      ensures err == ENOSPC <==> forall g: nat, i: nat :: !IsFree(q, old(groups), g, i)
      ensures err == EOK ==>
        var g, i := GroupOf(q, block), IndexOf(q, block);
        && StandsFor(q, g, i, block) && IsFree(q, old(groups), g, i)
        && block < (if q.shifted then 1 else 0) + q.total
        && Nearest(q, old(groups), GroupOf(q, goal), IndexOf(q, goal), g, i)
        && groups == old(groups)[g := Taken(old(groups)[g], i)]
        && inodeBlocks == old(inodeBlocks) + q.blockSize / 512
    {
      hide GroupsOk, BlocksIn, GroupOf, IndexOf, Total, FirstBlock, GroupCnt, StandsFor, Nearest, FirstFree, IsFree;
      GroupCount(q, groups);
      var bgId, idx := GroupOf(q, goal), IndexOf(q, goal);
      var found, g, i := false, bgId, 0;
      CountSays(q, groups, bgId);
      if groups[bgId].free != 0 {
        FirstIndex(q, bgId);
        var firstIdx := IndexOf(q, FirstBlock(q, bgId));
        if idx < firstIdx {
          idx := firstIdx;
        }
        found, i := SearchGoalGroup(bgId, idx);
      } else {
        NoneBehind(q, groups, bgId, idx);
      }
      if !found {
        found, g, i := SearchOthers(bgId);
      }
      if !found {
        AllEmpty(q, groups);
        NoneLeft(groups);
        return ENOSPC, 0;
      }
      Chosen(q, groups, bgId, idx, g, i);
      block := Success(g, i);
      return EOK, block;
    }

    /** Look at all groups, beginning with the one behind the goal's. */
    method SearchOthers(bgId: nat) returns (found: bool, g: nat, i: nat)
      requires Valid() && bgId < |groups|
      ensures found ==> g < |groups| && FirstFree(q, groups, g, 0, i)
      ensures found ==> forall h: nat :: h < |groups| && Ahead(bgId, h, |groups|) < Ahead(bgId, g, |groups|) ==>
        groups[h].free == 0
      ensures !found ==> forall h :: 0 <= h < |groups| ==> groups[h].free == 0
    {
      hide GroupsOk, BlocksIn, Total, FirstFree, IsFree, GroupCnt;
      GroupCount(q, groups);
      var n := GroupCnt(q);
      NextGroup(bgId, n);
      g := (bgId + 1) % n;
      var count := n;
      found, i := false, 0;
      while count > 0
        invariant 0 <= count <= n && g < n && n == |groups|
        invariant count > 0 ==> Ahead(bgId, g, n) == n - count
        invariant forall h: nat :: h < n && Ahead(bgId, h, n) < n - count ==> groups[h].free == 0
      {
        if groups[g].free != 0 {
          found, i := SearchGroup(g);
          return;
        }
        NextGroup(g, n);
        g := (g + 1) % n;
        count := count - 1;
      }
    }

    /** Look for a free block in a group that must have one according to its count. */
    method SearchGroup(g: nat) returns (found: bool, i: nat)
      requires Valid() && g < |groups| && groups[g].free != 0
      ensures found && FirstFree(q, groups, g, 0, i)
    {
      CountSays(q, groups, g);
      assert GroupOk(q, g, groups[g]);
      FirstIndex(q, g);
      var first := IndexOf(q, FirstBlock(q, g));
      found, i := FindClear(groups[g].bits, first, BlocksIn(q, g));
    }

    method Success(g: nat, i: nat) returns (block: nat)
      requires Valid() && IsFree(q, groups, g, i)
      modifies this
      ensures Valid() && groups == old(groups)[g := Taken(old(groups)[g], i)]
      ensures inodeBlocks == old(inodeBlocks) + q.blockSize / 512
      ensures StandsFor(q, g, i, block) && GroupOf(q, block) == g && IndexOf(q, block) == i
      ensures block < (if q.shifted then 1 else 0) + q.total
    {
      GroupSizes(q, g);
      AddressInverse(q, g, i);
      block := Address(q, g, i);
      Take(g, i);
    }

    /** Allocate this very block if it is free. */
    method TryAllocBlock(a: nat) returns (free: bool)
      requires Valid() && GroupOf(q, a) < |groups| && IndexOf(q, a) < BlocksIn(q, GroupOf(q, a))
      modifies this
      ensures Valid() && free == IsFree(q, old(groups), GroupOf(q, a), IndexOf(q, a))
      ensures groups == if free then old(groups)[GroupOf(q, a) := Taken(old(groups)[GroupOf(q, a)],
        IndexOf(q, a))] else old(groups)
      ensures inodeBlocks == old(inodeBlocks) + if free then q.blockSize / 512 else 0
      ensures (q.shifted ==> a > 0) ==> StandsFor(q, GroupOf(q, a), IndexOf(q, a), a)
    {
      if q.shifted ==> a > 0 {
        AddressOf(q, a);
      }
      var g, i := GroupOf(q, a), IndexOf(q, a);
      assert GroupOk(q, g, groups[g]);
      free := !groups[g].bits[i];
      if free {
        Take(g, i);
      }
    }

    /** Free an allocated block. */
    method FreeBlock(a: nat)
      requires Valid() && InUse(q, groups, a)
      modifies this
      ensures Valid()
      ensures groups == old(groups)[GroupOf(q, a) := Given(old(groups)[GroupOf(q, a)], IndexOf(q, a))]
      ensures inodeBlocks == old(inodeBlocks) - q.blockSize / 512
      ensures StandsFor(q, GroupOf(q, a), IndexOf(q, a), a)
    {
      AddressOf(q, a);
      var g, i := GroupOf(q, a), IndexOf(q, a);
      assert GroupOk(q, g, groups[g]);
      GiveKeeps(q, groups, g, i);
      hide GroupsOk, Total, BlocksIn, GroupOf, IndexOf, InUse;
      groups := groups[g := Given(groups[g], i)];
      freeCount := freeCount + 1;
      inodeBlocks := inodeBlocks - q.blockSize / 512;
    }

    /**
     * Free `count` blocks from `first` on, group by group.  A group's part is computed from the size of
     * its bitmap block, not from the number of its blocks.
     */
    method FreeBlocks(first: nat, count: nat)
      requires Valid() && count > 0 && forall a :: first <= a < first + count ==> InUse(q, groups, a)
      modifies this
      ensures RangeCleared(q, old(groups), groups, first, count) <==> Separable(q, first, count)
      ensures Separable(q, first, count) ==>
        && Valid() && freeCount == old(freeCount) + count
        && inodeBlocks == old(inodeBlocks) - count * (q.blockSize / 512)
    {
      hide GroupsOk, BlocksIn, GroupOf, IndexOf, Total, RangeCleared, Separable, InUse, Address, PartOf;
      GroupCount(q, groups);
      ghost var groups0, exact := groups, Separable(q, first, count);
      EndsUsed(q, groups, first, count);
      var cur, left := first, count;
      var bgFirst, bgLast := GroupOf(q, first), GroupOf(q, first + count - 1);
      ghost var bg0 := bgFirst;
      Untouched(q, groups, first);
      if !exact {
        PartOver(q, groups, first, count);
      }
      while bgFirst <= bgLast
        invariant bg0 <= bgFirst <= bgLast + 1 && bgLast < |groups| == |groups0|
        invariant 0 <= left <= count && cur + left == first + count
        invariant forall g :: 0 <= g < |groups| ==> |groups[g].bits| == 8 * q.blockSize
        invariant exact ==> Valid() && freeCount == old(freeCount) + (count - left)
        invariant inodeBlocks == old(inodeBlocks) - (count - left) * (q.blockSize / 512)
        invariant exact ==> RangeCleared(q, groups0, groups, first, count - left)
        invariant exact ==> if left == 0 then bgFirst > bgLast else bgFirst == GroupOf(q, cur)
        invariant bgFirst == bg0 ==> groups == groups0 && cur == first
        invariant !exact ==> q.perGroup < 8 * q.blockSize && (bgFirst > bg0 ==> !groups[bg0].bits[q.perGroup])
        decreases bgLast + 1 - bgFirst
      {
        var idx := IndexOf(q, cur);
        var part := q.blockSize * 8 - idx;
        part := if left > part then part else left;
        PartIs(q, cur, left);
        if exact {
          PartFits(q, groups0, groups, first, count, left, cur);
        }
        var bits := ClearBits(groups[bgFirst].bits, idx, part);
        Spread(count - left, part, q.blockSize / 512);
        left := left - part;
        cur := cur + part;
        groups := groups[bgFirst := Group(bits, groups[bgFirst].free + part)];
        freeCount := freeCount + part;
        inodeBlocks := inodeBlocks - part * (q.blockSize / 512);
        bgFirst := bgFirst + 1;
      }
      if exact {
        StillInside(q, first, count, left);
      } else {
        Spilled(q, groups0, groups, first, count, bg0);
      }
    }
  }

  ghost predicate InUse(q: Geometry, groups: seq<Group>, a: nat)
    requires q.perGroup > 0
  {
    && (q.shifted ==> a > 0)
    && GroupOf(q, a) < |groups| && IndexOf(q, a) < BlocksIn(q, GroupOf(q, a))
    && IndexOf(q, a) < |groups[GroupOf(q, a)].bits| && groups[GroupOf(q, a)].bits[IndexOf(q, a)]
  }

  lemma GroupCount(q: Geometry, groups: seq<Group>)
    requires GroupsOk(q, groups)
    ensures q.perGroup > 0 && |groups| == GroupCnt(q)
  {
  }

  lemma NextGroup(g: nat, n: nat)
    requires g < n
    ensures (g + 1) % n == if g + 1 == n then 0 else g + 1
  {
  }

  /** No group has a free block when all counts are 0. */
  lemma AllEmpty(q: Geometry, groups: seq<Group>)
    requires GroupsOk(q, groups) && forall g :: 0 <= g < |groups| ==> groups[g].free == 0
    ensures forall g: nat, i: nat :: !IsFree(q, groups, g, i)
  {
    forall g: nat, i: nat ensures !IsFree(q, groups, g, i) {
      if g < |groups| {
        CountSays(q, groups, g);
      }
    }
  }

  lemma {:induction false} NoneLeft(groups: seq<Group>)
    requires forall g :: 0 <= g < |groups| ==> groups[g].free == 0
    ensures Total(groups) == 0
  {
    if groups != [] {
      NoneLeft(groups[1..]);
    }
  }

  lemma NoneBehind(q: Geometry, groups: seq<Group>, g: nat, idx: nat)
    requires GroupsOk(q, groups) && g < |groups| && groups[g].free == 0
    ensures forall k: nat :: !IsFree(q, groups, g, k)
  {
    CountSays(q, groups, g);
  }

  lemma Chosen(q: Geometry, groups: seq<Group>, bg: nat, idx: nat, g: nat, i: nat)
    requires GroupsOk(q, groups)
    requires || (g == bg && FirstFree(q, groups, bg, idx, i))
             || (&& g < |groups| && FirstFree(q, groups, g, 0, i) &&
                 (forall k :: idx <= k ==> !IsFree(q, groups, bg, k))
                 && forall h: nat :: h < |groups| && Ahead(bg, h, |groups|) < Ahead(bg, g, |groups|) ==>
                      groups[h].free == 0)
    ensures Nearest(q, groups, bg, idx, g, i) && IsFree(q, groups, g, i)
  {
    hide BlocksIn, GroupOk;
    forall h: nat, k: nat | h < |groups| && groups[h].free == 0 ensures !IsFree(q, groups, h, k) {
      NoneBehind(q, groups, h, 0);
    }
  }

  // ----- freeing ranges -----

  /** Load a bitmap, clear some bits in place, and store it again. */
  method ClearBits(bits: seq<bool>, s: nat, n: nat) returns (r: seq<bool>)
    requires s + n <= |bits|
    ensures r == Cleared(bits, s, n)
  {
    var a := new bool[|bits|](i requires 0 <= i < |bits| => bits[i]);
    assert a[..] == bits;
    BitsFree(a, s, n);
    r := a[..];
  }

  ghost predicate InRange(q: Geometry, g: nat, i: nat, first: nat, count: nat) {
    i < q.perGroup && first <= (if q.shifted then 1 else 0) + g * q.perGroup + i < first + count
  }

  /** Exactly the bits of blocks `first` to `first + count - 1` were cleared. */
  ghost predicate RangeCleared(q: Geometry, groups: seq<Group>, groups': seq<Group>, first: nat, count: nat) {
    && |groups'| == |groups|
    && forall g :: 0 <= g < |groups| ==>
         && |groups'[g].bits| == |groups[g].bits|
         && forall i :: 0 <= i < |groups[g].bits| ==>
              groups'[g].bits[i] == (groups[g].bits[i] && !InRange(q, g, i, first, count))
  }

  /** The range lies in one group, or bitmap blocks have exactly one bit per block of a group. */
  ghost predicate Separable(q: Geometry, first: nat, count: nat)
    requires q.perGroup > 0 && first + count > 0
  {
    GroupOf(q, first) == GroupOf(q, first + count - 1) || q.perGroup == 8 * q.blockSize
  }

  lemma EndsUsed(q: Geometry, groups: seq<Group>, first: nat, count: nat)
    requires GroupsOk(q, groups) && count > 0 && forall a :: first <= a < first + count ==> InUse(q, groups, a)
    ensures GroupOf(q, first) <= GroupOf(q, first + count - 1) < |groups|
    ensures forall g :: 0 <= g < |groups| ==> |groups[g].bits| == 8 * q.blockSize
    ensures q.perGroup <= 8 * q.blockSize
  {
    assert InUse(q, groups, first) && InUse(q, groups, first + count - 1);
    DivMono(Shift(q, first), Shift(q, first + count - 1), q.perGroup);
    forall g | 0 <= g < |groups| ensures |groups[g].bits| == 8 * q.blockSize {
      assert GroupOk(q, g, groups[g]);
    }
  }

  lemma Untouched(q: Geometry, groups: seq<Group>, first: nat)
    ensures RangeCleared(q, groups, groups, first, 0)
  {
  }

  /** Inside a group, index and address go together. */
  lemma Along(q: Geometry, a: nat, k: nat)
    requires q.perGroup > 0 && (q.shifted ==> a > 0) && IndexOf(q, a) + k <= q.perGroup
    ensures IndexOf(q, a) + k < q.perGroup ==>
      GroupOf(q, a + k) == GroupOf(q, a) && IndexOf(q, a + k) == IndexOf(q, a) + k
    ensures IndexOf(q, a) + k == q.perGroup ==> GroupOf(q, a + k) == GroupOf(q, a) + 1 && IndexOf(q, a + k) == 0
  {
    AlongMod(q.perGroup, Shift(q, a), k);
    assert Shift(q, a + k) == Shift(q, a) + k;
  }

  lemma AlongMod(p: nat, x: nat, k: nat)
    requires p > 0 && x % p + k <= p
    ensures x % p + k < p ==> (x + k) / p == x / p && (x + k) % p == x % p + k
    ensures x % p + k == p ==> (x + k) / p == x / p + 1 && (x + k) % p == 0
  {
    var g, i := x / p, x % p;
    Split(p, x);
    if i + k < p {
      DivMod(p, g, i + k);
    } else {
      DivMod(p, g + 1, 0);
      Distribute(p, g);
    }
  }

  lemma Split(p: nat, x: nat)
    requires p > 0
    ensures x == p * (x / p) + x % p
  {
  }

  lemma Spread(a: nat, b: int, c: nat)
    ensures (a + b) * c == a * c + b * c
  {
  }

  lemma Distribute(p: nat, g: nat)
    ensures p * (g + 1) == p * g + p
  {
  }

  lemma SameGroup(q: Geometry, a: nat, b: nat)
    requires q.perGroup > 0 && (q.shifted ==> a > 0) && a <= b && GroupOf(q, a) == GroupOf(q, b)
    ensures IndexOf(q, b) == IndexOf(q, a) + (b - a)
  {
    var p, x, y := q.perGroup, Shift(q, a), Shift(q, b);
    assert x == p * (x / p) + x % p && y == p * (y / p) + y % p;
  }

  lemma OtherGroup(q: Geometry, a: nat, b: nat)
    requires q.perGroup > 0 && (q.shifted ==> a > 0) && a <= b && GroupOf(q, a) != GroupOf(q, b)
    ensures IndexOf(q, a) + (b - a) >= q.perGroup
  {
    if IndexOf(q, a) + (b - a) < q.perGroup {
      Along(q, a, b - a);
    }
  }

  lemma PartOver(q: Geometry, groups: seq<Group>, first: nat, count: nat)
    requires GroupsOk(q, groups) && count > 0 && (forall a :: first <= a < first + count ==> InUse(q, groups, a))
    requires !Separable(q, first, count)
    ensures q.perGroup < 8 * q.blockSize
    ensures var idx := IndexOf(q, first);
      idx < q.perGroup < idx + if count > 8 * q.blockSize - idx then 8 * q.blockSize - idx else count
  {
    assert InUse(q, groups, first);
    OtherGroup(q, first, first + count - 1);
  }

  lemma Spilled(q: Geometry, groups: seq<Group>, groups': seq<Group>, first: nat, count: nat, g: nat)
    requires GroupsOk(q, groups) && g < |groups| == |groups'| && q.perGroup < 8 * q.blockSize == |groups'[g].bits|
    requires !groups'[g].bits[q.perGroup]
    ensures !RangeCleared(q, groups, groups', first, count)
  {
    assert GroupOk(q, g, groups[g]);
    assert !InRange(q, g, q.perGroup, first, count);
  }

  /** While blocks are left, the group reached is not beyond the last one. */
  lemma StillInside(q: Geometry, first: nat, count: nat, left: nat)
    requires q.perGroup > 0 && left <= count && count > 0
    ensures left > 0 ==> GroupOf(q, first + count - left) <= GroupOf(q, first + count - 1)
  {
    if left > 0 {
      DivMono(Shift(q, first + count - left), Shift(q, first + count - 1), q.perGroup);
    }
  }

  /** How many blocks the next part has. */
  function PartOf(q: Geometry, cur: nat, left: nat): int
    requires q.perGroup > 0
  {
    var rest := 8 * q.blockSize - IndexOf(q, cur);
    if left > rest then rest else left
  }

  lemma PartIs(q: Geometry, cur: nat, left: nat)
    requires q.perGroup > 0
    ensures IndexOf(q, cur) < q.perGroup
    ensures PartOf(q, cur, left) ==
      if left > 8 * q.blockSize - IndexOf(q, cur) then 8 * q.blockSize - IndexOf(q, cur) else left
  {
  }

  lemma PartInGroup(q: Geometry, groups: seq<Group>, first: nat, count: nat, left: nat)
    requires GroupsOk(q, groups) && 0 < left <= count && Separable(q, first, count)
    requires forall a :: first <= a < first + count ==> InUse(q, groups, a)
    ensures var cur := first + count - left;
      var part := PartOf(q, cur, left);
      && 0 < part <= left && IndexOf(q, cur) + part <= q.perGroup
      && (q.shifted ==> cur > 0)
      && (part < left ==> IndexOf(q, cur) + part == q.perGroup)
      && (part == left ==> GroupOf(q, cur) == GroupOf(q, first + count - 1))
  {
    var cur, last := first + count - left, first + count - 1;
    assert InUse(q, groups, first) && InUse(q, groups, cur) && InUse(q, groups, last);
    if GroupOf(q, first) == GroupOf(q, last) {
      DivMono(Shift(q, first), Shift(q, cur), q.perGroup);
      DivMono(Shift(q, cur), Shift(q, last), q.perGroup);
      SameGroup(q, cur, last);
    } else {
      var part := PartOf(q, cur, left);
      if part == left {
        Along(q, cur, left - 1);
      }
    }
  }

  lemma PartBits(q: Geometry, groups0: seq<Group>, gs: seq<Group>, first: nat, count: nat, left: nat, i: nat)
    requires GroupsOk(q, groups0) && 0 < left <= count && Separable(q, first, count)
    requires forall a :: first <= a < first + count ==> InUse(q, groups0, a)
    requires RangeCleared(q, groups0, gs, first, count - left)
    requires var cur := first + count - left; IndexOf(q, cur) <= i < IndexOf(q, cur) + PartOf(q, cur, left)
    ensures var cur := first + count - left;
      var g := GroupOf(q, cur);
      g < |gs| && i < |gs[g].bits| && gs[g].bits[i] && i < BlocksIn(q, g) && i < q.perGroup
      && Address(q, g, i) == cur + (i - IndexOf(q, cur))
  {
    var cur := first + count - left;
    PartInGroup(q, groups0, first, count, left);
    var k := i - IndexOf(q, cur);
    Along(q, cur, k);
    assert InUse(q, groups0, cur + k);
    AddressOf(q, cur + k);
    assert GroupOk(q, GroupOf(q, cur), groups0[GroupOf(q, cur)]);
  }

  /** One part of an exact range: its bits are cleared, nothing else, and the counts stay exact. */
  lemma PartFits(q: Geometry, groups0: seq<Group>, gs: seq<Group>, first: nat, count: nat, left: nat, cur: nat)
    requires GroupsOk(q, groups0) && GroupsOk(q, gs) && 0 < left <= count && cur + left == first + count
    requires Separable(q, first, count) && RangeCleared(q, groups0, gs, first, count - left)
    requires forall a :: first <= a < first + count ==> InUse(q, groups0, a)
    ensures var g, idx, part := GroupOf(q, cur), IndexOf(q, cur), PartOf(q, cur, left);
      && g < |gs| && 0 < part <= left && idx + part <= |gs[g].bits|
      && var gs' := gs[g := Group(Cleared(gs[g].bits, idx, part), gs[g].free + part)];
      && GroupsOk(q, gs') && Total(gs') == Total(gs) + part
      && RangeCleared(q, groups0, gs', first, count - left + part)
      && (if part == left then g == GroupOf(q, first + count - 1) else g + 1 == GroupOf(q, cur + part))
  {
    hide RangeCleared, Separable, InUse, PartOf, GroupOf, IndexOf, Address, BlocksIn, GroupsOk, GroupOk, Total,
      Cleared;
    GroupCount(q, gs);
    var g, idx, part := GroupOf(q, cur), IndexOf(q, cur), PartOf(q, cur, left);
    PartInGroup(q, groups0, first, count, left);
    Along(q, cur, part);
    PartBits(q, groups0, gs, first, count, left, idx);
    PartBits(q, groups0, gs, first, count, left, idx + part - 1);
    forall i | idx <= i < idx + part ensures i < |gs[g].bits| && gs[g].bits[i] {
      PartBits(q, groups0, gs, first, count, left, i);
    }
    var x := Group(Cleared(gs[g].bits, idx, part), gs[g].free + part);
    ClearedGroup(q, gs, g, idx, part);
    TotalPut(gs, g, x);
    PartCleared(q, groups0, gs, first, count, left, cur, gs[g := x]);
  }

  lemma ClearedGroup(q: Geometry, gs: seq<Group>, g: nat, idx: nat, part: nat)
    requires GroupsOk(q, gs) && g < |gs| && idx + part <= |gs[g].bits| && idx + part <= BlocksIn(q, g)
    requires forall i :: idx <= i < idx + part ==> gs[g].bits[i]
    ensures GroupsOk(q, gs[g := Group(Cleared(gs[g].bits, idx, part), gs[g].free + part)])
  {
    assert GroupOk(q, g, gs[g]);
    ClearMore(gs[g].bits, idx, part, BlocksIn(q, g));
    GroupPut(q, gs, g, Group(Cleared(gs[g].bits, idx, part), gs[g].free + part));
  }

  lemma GroupPut(q: Geometry, gs: seq<Group>, g: nat, x: Group)
    requires GroupsOk(q, gs) && g < |gs| && GroupOk(q, g, x)
    ensures GroupsOk(q, gs[g := x])
  {
  }

  lemma PartCleared(q: Geometry, groups0: seq<Group>, gs: seq<Group>, first: nat, count: nat, left: nat, cur: nat,
                    gs': seq<Group>)
    requires 0 < left <= count && cur + left == first + count && q.perGroup > 0 && (q.shifted ==> cur > 0)
    requires RangeCleared(q, groups0, gs, first, count - left)
    requires var g, idx, part := GroupOf(q, cur), IndexOf(q, cur), PartOf(q, cur, left);
      && g < |gs| == |gs'| && 0 < part <= left && idx + part <= q.perGroup && idx + part <= |gs[g].bits|
      && gs' == gs[g := gs'[g]] && gs'[g].bits == Cleared(gs[g].bits, idx, part)
    ensures RangeCleared(q, groups0, gs', first, count - left + PartOf(q, cur, left))
  {
    var g, idx, part := GroupOf(q, cur), IndexOf(q, cur), PartOf(q, cur, left);
    var done, more := count - left, count - left + part;
    forall h: nat, i: nat | i < q.perGroup
      ensures InRange(q, h, i, first, more) <==> InRange(q, h, i, first, done) || (h == g && idx <= i < idx + part)
    {
      PartRange(q, cur, part, h, i);
    }
  }

  /** The addresses of the part are those of its group and indexes. */
  lemma PartRange(q: Geometry, cur: nat, part: nat, h: nat, i: nat)
    requires q.perGroup > 0 && i < q.perGroup && (q.shifted ==> cur > 0) && IndexOf(q, cur) + part <= q.perGroup
    ensures cur <= Address(q, h, i) < cur + part <==>
      h == GroupOf(q, cur) && IndexOf(q, cur) <= i < IndexOf(q, cur) + part
  {
    var a := Address(q, h, i);
    AddressInverse(q, h, i);
    if cur <= a < cur + part {
      Along(q, cur, a - cur);
    }
    AddressOf(q, cur);
  }
}
