/** Reading a file: an unaligned beginning, whole blocks in runs of adjacent blocks, and the rest. */
module FileRead {

  type Bytes = seq<int>

  /** The device as a list of blocks, and the blocks of the file in logical order; 0 stands for a hole. */
  datatype Source = Source(blockSize: nat, disk: seq<Bytes>, blocks: seq<nat>, size: nat)

  ghost predicate SourceOk(f: Source) {
    && f.blockSize > 0
    && (forall i :: 0 <= i < |f.disk| ==> |f.disk[i]| == f.blockSize)
    && (forall i :: 0 <= i < |f.blocks| ==> f.blocks[i] < |f.disk|)
    && f.size <= |f.blocks| * f.blockSize
  }

  /** The bytes of device blocks `f.blocks[0]` to `f.blocks[n - 1]`. */
  function Content(f: Source, n: nat): Bytes
    requires n <= |f.blocks|
  {
    if n == 0 then []
    else Content(f, n - 1) + if f.blocks[n - 1] < |f.disk| then f.disk[f.blocks[n - 1]] else []
  }

  /** The bytes of these blocks from position `p` on. */
  ghost function Slice(f: Source, p: nat, n: nat): Bytes
    requires SourceOk(f) && p + n <= |f.blocks| * f.blockSize
  {
    ContentSize(f, |f.blocks|);
    Content(f, |f.blocks|)[p..p + n]
  }

  lemma {:induction false} ContentSize(f: Source, n: nat)
    requires SourceOk(f) && n <= |f.blocks|
    ensures |Content(f, n)| == n * f.blockSize
  {
    if n > 0 {
      ContentSize(f, n - 1);
      assert n * f.blockSize == (n - 1) * f.blockSize + f.blockSize;
    }
  }

  lemma {:induction false} ContentPrefix(f: Source, n: nat, k: nat)
    requires SourceOk(f) && n <= k <= |f.blocks|
    ensures Content(f, n) <= Content(f, k)
    decreases k
  {
    if n < k {
      ContentPrefix(f, n, k - 1);
    }
  }

  /** Logical block `i` as a part of the whole file. */
  lemma BlockBytes(f: Source, i: nat)
    requires SourceOk(f) && i < |f.blocks|
    ensures i * f.blockSize + f.blockSize <= |f.blocks| * f.blockSize
    ensures Slice(f, i * f.blockSize, f.blockSize) == f.disk[f.blocks[i]]
  {
    var bs := f.blockSize;
    ContentSize(f, i);
    ContentSize(f, |f.blocks|);
    ContentPrefix(f, i + 1, |f.blocks|);
    Mul(i, 1, |f.blocks|, bs);
    var front, block, all := Content(f, i), f.disk[f.blocks[i]], Content(f, |f.blocks|);
    assert Content(f, i + 1) == front + block;
    Middle(front, block, all);
  }

  lemma Middle(front: Bytes, block: Bytes, all: Bytes)
    requires front + block <= all
    ensures all[|front|..|front| + |block|] == block
  {
    assert all[..|front| + |block|] == front + block;
  }

  lemma Inner(all: Bytes, p: nat, bs: nat, off: nat, n: nat)
    requires p + bs <= |all| && off + n <= bs
    ensures all[p..p + bs][off..off + n] == all[p + off..p + off + n]
  {
    var a, b := all[p..p + bs][off..off + n], all[p + off..p + off + n];
    assert |a| == |b| && forall i :: 0 <= i < n ==> a[i] == all[p + off + i] == b[i];
  }

  lemma BytesJoin(f: Source, p: nat, a: nat, b: nat)
    requires SourceOk(f) && p + a + b <= |f.blocks| * f.blockSize
    ensures Slice(f, p, a) + Slice(f, p + a, b) == Slice(f, p, a + b)
  {
    ContentSize(f, |f.blocks|);
    var all := Content(f, |f.blocks|);
    assert all[p..p + a] + all[p + a..p + a + b] == all[p..p + (a + b)];
  }

  /** A part of one block. */
  lemma PartBytes(f: Source, i: nat, off: nat, n: nat)
    requires SourceOk(f) && i < |f.blocks| && off + n <= f.blockSize
    ensures i * f.blockSize + off + n <= |f.blocks| * f.blockSize
    ensures Slice(f, i * f.blockSize + off, n) == f.disk[f.blocks[i]][off..off + n]
  {
    BlockBytes(f, i);
    ContentSize(f, |f.blocks|);
    Inner(Content(f, |f.blocks|), i * f.blockSize, f.blockSize, off, n);
  }

  /** `count` blocks read from the device in one go. */
  function Direct(f: Source, start: nat, count: nat): Bytes {
    if count == 0 then []
    else Direct(f, start, count - 1) + if start + count - 1 < |f.disk| then f.disk[start + count - 1] else []
  }

  /** Logical blocks `i` to `i + count - 1` are adjacent on the device, from `start` on. */
  ghost predicate Adjacent(f: Source, i: nat, start: nat, count: nat) {
    i + count <= |f.blocks| && forall j :: i <= j < i + count ==> f.blocks[j] == start + (j - i)
  }

  /** Reading a run of adjacent blocks is the same as reading one block after the other. */
  lemma {:induction false} RunBytes(f: Source, i: nat, start: nat, count: nat)
    requires SourceOk(f) && Adjacent(f, i, start, count)
    ensures i * f.blockSize + count * f.blockSize <= |f.blocks| * f.blockSize
    ensures Direct(f, start, count) == Slice(f, i * f.blockSize, count * f.blockSize)
    decreases count
  {
    hide SourceOk, Slice, Content;
    var bs := f.blockSize;
    Mul(i, count, |f.blocks|, bs);
    if count == 0 {
      NoBytes(f, i * bs);
    } else {
      var k := count - 1;
      RunBytes(f, i, start, k);
      BlockBytes(f, i + k);
      Mul(i, k, |f.blocks|, bs);
      Mul(k, 1, count, bs);
      BytesJoin(f, i * bs, k * bs, bs);
      DiskBound(f, i + k);
    }
  }

  lemma NoBytes(f: Source, p: nat)
    requires SourceOk(f) && p <= |f.blocks| * f.blockSize
    ensures Slice(f, p, 0) == []
  {
    ContentSize(f, |f.blocks|);
  }

  lemma DiskBound(f: Source, i: nat)
    requires SourceOk(f) && i < |f.blocks|
    ensures f.blocks[i] < |f.disk|
  {
  }

  lemma Mul(i: nat, c: nat, n: nat, bs: nat)
    requires i + c <= n
    ensures i * bs + c * bs == (i + c) * bs <= n * bs
  {
  }

  /** Position `b` blocks into the file, with `size` bytes still to read up to `end`, whole blocks ending at `last`. */
  ghost predicate Aligned(f: Source, b: nat, p: nat, size: nat, end: nat, last: nat) {
    && p == b * f.blockSize && p + size == end && end <= |f.blocks| * f.blockSize
    && last * f.blockSize <= end < last * f.blockSize + f.blockSize
  }

  lemma AlignedFacts(f: Source, b: nat, p: nat, size: nat, end: nat, last: nat)
    requires SourceOk(f) && Aligned(f, b, p, size, end, last)
    ensures b <= last <= |f.blocks| && (size >= f.blockSize <==> b < last)
    ensures size > 0 ==> b < |f.blocks|
  {
    var bs, n := f.blockSize, |f.blocks|;
    Less(b, last, bs);
    Less(last, b, bs);
    Less(n, last, bs);
    Less(n, b, bs);
  }

  lemma Less(a: nat, b: nat, bs: nat)
    ensures a < b ==> a * bs + bs <= b * bs
  {
    if a < b {
      Mul(a + 1, b - (a + 1), b, bs);
    }
  }

  /** A run of `count` blocks has been read. */
  lemma AlignedStep(f: Source, b: nat, p: nat, size: nat, end: nat, last: nat, count: nat)
    requires SourceOk(f) && Aligned(f, b, p, size, end, last) && b + count <= last
    ensures f.blockSize * count <= size
    ensures Aligned(f, b + count, p + f.blockSize * count, size - f.blockSize * count, end, last)
  {
    Mul(b, count, last, f.blockSize);
  }

  // ----- holes -----

  function Zeros(n: nat): Bytes {
    seq(n, i => 0)
  }

  /** The file as it should be read: a block of zeros stands for every hole. */
  function Zeroed(f: Source): Source {
    f.(disk := f.disk + [Zeros(f.blockSize)],
       blocks := seq(|f.blocks|, j requires 0 <= j < |f.blocks| => if f.blocks[j] == 0 then |f.disk| else f.blocks[j]))
  }

  /**
   * The device block that is read for logical block `j`: zeros for a hole before `b0`, where the read
   * does not begin with a whole block, but the block behind the hole for one among the whole blocks
   * up to `last`, and device block 0 if there is none.
   */
  function Shown(f: Source, b0: nat, last: nat, j: nat): nat
    requires j < |f.blocks|
  {
    if f.blocks[j] != 0 then f.blocks[j]
    else if j < b0 then |f.disk|
    else if j + 1 < last && j + 1 < |f.blocks| then f.blocks[j + 1]
    else 0
  }

  /** The file as it is read. */
  function Seen(f: Source, b0: nat, last: nat): Source {
    f.(disk := f.disk + [Zeros(f.blockSize)],
       blocks := seq(|f.blocks|, j requires 0 <= j < |f.blocks| => Shown(f, b0, last, j)))
  }

  lemma SeenOk(f: Source, b0: nat, last: nat)
    requires SourceOk(f)
    ensures SourceOk(Seen(f, b0, last)) && SourceOk(Zeroed(f))
    ensures |Seen(f, b0, last).blocks| == |f.blocks| == |Zeroed(f).blocks|
  {
  }

  /** Reading from the device does not reach the block of zeros. */
  lemma {:induction false} DirectSame(f: Source, w: Source, start: nat, count: nat)
    requires w.disk == f.disk + [Zeros(f.blockSize)] && start + count <= |f.disk|
    ensures Direct(w, start, count) == Direct(f, start, count)
    decreases count
  {
    if count > 0 {
      DirectSame(f, w, start, count - 1);
    }
  }

  lemma OnDevice(f: Source, b0: nat, last: nat, b: nat, start: nat, count: nat)
    requires SourceOk(f) && b0 <= b && 0 < count && Adjacent(Seen(f, b0, last), b, start, count)
    ensures start + count <= |f.disk|
  {
    var j := b + count - 1;
    assert Seen(f, b0, last).blocks[j] == Shown(f, b0, last, j) < |f.disk|;
  }

  /** The next run: as many blocks as are adjacent on the device, but not beyond `last`. */
  method NextRun(f: Source, ghost b0: nat, ghost b: nat, last: nat, idx0: nat, start0: nat, count0: nat)
    returns (idx: nat, start: nat, count: nat, fblock: nat)
    requires SourceOk(f) && b0 <= b < last <= |f.blocks|
    requires if count0 == 0 then start0 == 0 && idx0 == b else count0 == 1 && start0 == f.blocks[b] && idx0 == b + 1
    ensures 0 < count && b + count <= last && Adjacent(Seen(f, b0, last), b, start, count)
    ensures if b + count < last then idx == b + count + 1 && fblock == f.blocks[b + count] else idx == last
  {
    idx, start, count, fblock := idx0, start0, count0, start0;
    while idx < last
      invariant b <= idx <= last && idx == b + count && (count == 0 ==> start == 0)
      invariant f.blocks[b] != 0 ==> Adjacent(f, b, start, count) && (count > 0 ==> start > 0)
      invariant f.blocks[b] == 0 ==> start == 0 && count <= 1
    {
      fblock := f.blocks[idx];
      idx := idx + 1;
      if start == 0 {
        start := fblock;
      }
      if start + count != fblock {
        break;
      }
      count := count + 1;
    }
  }

  /** The whole blocks: read run after run. */
  method ReadBlocks(f: Source, b0: nat, p0: nat, size0: nat, last: nat, ghost end: nat)
    returns (buf: Bytes, idx: nat, p: nat, size: nat)
    requires SourceOk(f) && Aligned(f, b0, p0, size0, end, last)
    ensures Aligned(f, idx, p, size, end, last) && size < f.blockSize && p0 <= p
    ensures var w := Seen(f, b0, last);
      SourceOk(w) && |w.blocks| == |f.blocks| && p <= |f.blocks| * f.blockSize && buf == Slice(w, p0, p - p0)
  {
    hide SourceOk, Slice, Aligned, Direct, Adjacent;
    ghost var w := Seen(f, b0, last);
    SeenOk(f, b0, last);
    AlignedFacts(f, b0, p0, size0, end, last);
    AlignedEnd(f, b0, p0, size0, end, last);
    NoBytes(w, p0);
    buf, idx, p, size := [], b0, p0, size0;
    var start, count, fblock := 0, 0, 0;
    ghost var b := b0;
    while size >= f.blockSize
      invariant Aligned(f, b, p, size, end, last) && b0 <= b <= last <= |f.blocks| &&
        p0 <= p <= |f.blocks| * f.blockSize
      invariant size >= f.blockSize <==> b < last
      invariant b < last ==>
        if count == 0 then start == 0 && idx == b else count == 1 && start == f.blocks[b] && idx == b + 1
      invariant b == last ==> idx == last
      invariant buf == Slice(w, p0, p - p0)
      decreases last - b
    {
      idx, start, count, fblock := NextRun(f, b0, b, last, idx, start, count);
      RunBytes(w, b, start, count);
      OnDevice(f, b0, last, b, start, count);
      DirectSame(f, w, start, count);
      AlignedStep(f, b, p, size, end, last, count);
      AlignedFacts(f, b + count, p + f.blockSize * count, size - f.blockSize * count, end, last);
      AlignedEnd(f, b, p, size, end, last);
      AlignedEnd(f, b + count, p + f.blockSize * count, size - f.blockSize * count, end, last);
      Commute(count, f.blockSize);
      BytesJoin(w, p0, p - p0, count * f.blockSize);
      buf := buf + Direct(f, start, count);
      b := b + count;
      size := size - f.blockSize * count;
      p := p + f.blockSize * count;
      start := fblock;
      count := 1;
    }
  }

  lemma Commute(a: nat, b: nat)
    ensures a * b == b * a
  {
  }

  lemma AlignedEnd(f: Source, b: nat, p: nat, size: nat, end: nat, last: nat)
    requires SourceOk(f) && Aligned(f, b, p, size, end, last)
    ensures p == b * f.blockSize && p + size == end <= |f.blocks| * f.blockSize && f.blockSize > 0
  {
  }

  /** The beginning up to the next block border, when the position is not on one; a hole is filled with zeros. */
  method ReadHead(f: Source, pos: nat, size0: nat, ghost last: nat) returns (buf: Bytes, idx: nat, p: nat, size: nat)
    requires SourceOk(f) && pos + size0 <= |f.blocks| * f.blockSize
    requires pos % f.blockSize != 0 ==> pos < |f.blocks| * f.blockSize
    ensures idx == FirstWhole(f, pos) && pos <= p && p + size == pos + size0
    ensures var w := Seen(f, idx, last);
      SourceOk(w) && |w.blocks| == |f.blocks| && buf == Slice(w, pos, p - pos)
    ensures size > 0 || pos % f.blockSize == 0 ==> p == idx * f.blockSize
  {
    SeenOk(f, FirstWhole(f, pos), last);
    HeadFacts(f, pos, size0, last);
    hide Slice, Seen, SourceOk;
    var bs := f.blockSize;
    var unalg := pos % bs;
    idx := pos / bs;
    buf, p, size := [], pos, size0;
    if unalg != 0 {
      var len := if size > bs - unalg then bs - unalg else size;
      buf := if f.blocks[idx] != 0 then f.disk[f.blocks[idx]][unalg..unalg + len] else Zeros(len);
      size := size - len;
      p := p + len;
      idx := idx + 1;
    } else {
      NoBytes(Seen(f, idx, last), pos);
    }
  }

  lemma HeadFacts(f: Source, pos: nat, size: nat, last: nat)
    requires SourceOk(f) && pos + size <= |f.blocks| * f.blockSize
    requires pos % f.blockSize != 0 ==> pos < |f.blocks| * f.blockSize
    ensures var bs, w := f.blockSize, Seen(f, FirstWhole(f, pos), last);
      && bs > 0 && pos == pos / bs * bs + pos % bs && SourceOk(w) && |w.blocks| == |f.blocks|
      && (pos % bs != 0 ==>
            var idx, off := pos / bs, pos % bs;
            var len := if size > bs - off then bs - off else size;
            && idx < |f.blocks| && f.blocks[idx] < |f.disk| && |f.disk[f.blocks[idx]]| == bs
            && pos + (bs - off) == (idx + 1) * bs && pos + len <= |f.blocks| * bs
            && Slice(w, pos, len) == if f.blocks[idx] != 0 then f.disk[f.blocks[idx]][off..off + len] else Zeros(len))
  {
    var bs, idx, off := f.blockSize, pos / f.blockSize, pos % f.blockSize;
    assert pos == idx * bs + off;
    SeenOk(f, FirstWhole(f, pos), last);
    if off != 0 {
      Less(|f.blocks|, idx, bs);
      assert idx < |f.blocks|;
      var len := if size > bs - off then bs - off else size;
      HeadBytes(f, idx, off, len, last);
      DiskLen(f, idx);
      Mul(idx, 1, idx + 1, bs);
    }
  }

  lemma HeadBytes(f: Source, idx: nat, off: nat, len: nat, last: nat)
    requires SourceOk(f) && idx < |f.blocks| && off + len <= f.blockSize
    ensures var w, p := Seen(f, idx + 1, last), idx * f.blockSize + off;
      && SourceOk(w) && |w.blocks| == |f.blocks| && p + len <= |f.blocks| * f.blockSize && f.blocks[idx] < |f.disk|
      && |f.disk[f.blocks[idx]]| == f.blockSize
      && Slice(w, p, len) == if f.blocks[idx] != 0 then f.disk[f.blocks[idx]][off..off + len] else Zeros(len)
  {
    var w := Seen(f, idx + 1, last);
    SeenOk(f, idx + 1, last);
    PartBytes(w, idx, off, len);
    assert w.blocks[idx] == Shown(f, idx + 1, last, idx);
    hide Slice;
    assert Zeros(f.blockSize)[off..off + len] == Zeros(len);
  }

  /** The first block that is read as a whole. */
  function FirstWhole(f: Source, pos: nat): nat {
    if f.blockSize == 0 then 0 else pos / f.blockSize + if pos % f.blockSize != 0 then 1 else 0
  }

  /** The block in which the read ends; the whole blocks come before it. */
  function LastWhole(f: Source, end: nat): nat {
    if f.blockSize == 0 then 0 else end / f.blockSize
  }

  /** A position inside a block is inside the file's blocks. */
  predicate Inside(f: Source, pos: nat) {
    f.blockSize > 0 && (pos % f.blockSize != 0 ==> pos < |f.blocks| * f.blockSize)
  }

  /** What `n` bytes from position `pos` are read from. */
  function SeenFrom(f: Source, pos: nat, n: nat): Source
    requires f.blockSize > 0
  {
    Seen(f, FirstWhole(f, pos), LastWhole(f, pos + n))
  }

  /**
   * Read up to `want` bytes from position `pos`; returns the bytes and the new position.  They are
   * the bytes of the file, with zeros in its holes, if and only if what is read for the holes is zero.
   */
  method Read(f: Source, pos: nat, want: nat) returns (buf: Bytes, newPos: nat)
    requires SourceOk(f) && pos <= f.size
    ensures newPos == pos + |buf| == if pos + want <= f.size then pos + want else f.size
    ensures var n := newPos - pos;
      && SourceOk(SeenFrom(f, pos, n)) && |SeenFrom(f, pos, n).blocks| == |f.blocks| &&
          newPos <= |f.blocks| * f.blockSize
      && buf == Slice(SeenFrom(f, pos, n), pos, n)
    ensures SourceOk(Zeroed(f)) && |Zeroed(f).blocks| == |f.blocks|
    ensures buf == Slice(Zeroed(f), pos, newPos - pos) <==> HolesAreZero(f, pos, newPos - pos)
  {
    var size: nat := if want > f.size - pos then f.size - pos else want;
    var last := LastWhole(f, pos + size);
    LastIs(f, pos + size);
    InsideFile(f, pos);
    ReadExactly(f, pos, size);
    hide Slice, SourceOk, HolesAreZero, Seen, Zeroed, FirstWhole, LastWhole, Inside;
    buf := ReadParts(f, pos, size, last);
    newPos := pos + size;
  }

  /** Beginning, whole blocks and rest. */
  method ReadParts(f: Source, pos: nat, size0: nat, last: nat) returns (buf: Bytes)
    requires SourceOk(f) && pos + size0 <= |f.blocks| * f.blockSize
    requires last * f.blockSize <= pos + size0 < last * f.blockSize + f.blockSize && Inside(f, pos)
    ensures var w := Seen(f, FirstWhole(f, pos), last);
      SourceOk(w) && |w.blocks| == |f.blocks| && |buf| == size0 && buf == Slice(w, pos, size0)
  {
    ghost var b0, end := FirstWhole(f, pos), pos + size0;
    ghost var w := Seen(f, b0, last);
    SeenOk(f, b0, last);
    SliceSize(w, pos, size0);
    hide Slice, Aligned, SourceOk, Seen, FirstWhole;
    var idx, p, size;
    buf, idx, p, size := ReadHead(f, pos, size0, last);
    if size == 0 {
      return;
    }
    Start(f, idx, p, size, end, last);
    var more, p';
    more, idx, p', size := ReadBlocks(f, idx, p, size, last, end);
    AlignedEnd(f, idx, p', size, end, last);
    BytesJoin(w, pos, p - pos, p' - p);
    buf := buf + more;
    if size > 0 {
      Later(f, b0, p, idx, p');
      buf := buf + ReadTail(f, idx, size, b0, last, p', end);
      BytesJoin(w, pos, p' - pos, size);
    }
  }

  lemma Later(f: Source, b0: nat, p: nat, idx: nat, p': nat)
    requires f.blockSize > 0 && p == b0 * f.blockSize && p' == idx * f.blockSize && p <= p'
    ensures b0 <= idx
  {
    Less(idx, b0, f.blockSize);
  }

  /** The rest, less than a block: a hole is read from device block 0. */
  function ReadTail(f: Source, idx: nat, size: nat, ghost b0: nat, ghost last: nat, ghost p: nat,
                    ghost end: nat): (r: Bytes)
    requires SourceOk(f) && Aligned(f, idx, p, size, end, last) && 0 < size < f.blockSize && b0 <= idx
    ensures SourceOk(Seen(f, b0, last)) && |Seen(f, b0, last).blocks| == |f.blocks| &&
      p + size <= |f.blocks| * f.blockSize
    ensures r == Slice(Seen(f, b0, last), p, size)
  {
    SeenOk(f, b0, last);
    AlignedFacts(f, idx, p, size, end, last);
    PartBytes(Seen(f, b0, last), idx, 0, size);
    f.disk[f.blocks[idx]][..size]
  }

  // ----- when holes are read as zeros -----

  /** Every byte of a hole that is read comes from a zero on the device. */
  ghost predicate HolesAreZero(f: Source, pos: nat, n: nat)
    requires SourceOk(f)
  {
    ZeroIn(f, FirstWhole(f, pos), LastWhole(f, pos + n), pos, n)
  }

  ghost predicate ZeroIn(f: Source, b0: nat, last: nat, pos: nat, n: nat)
    requires SourceOk(f)
  {
    forall j, o :: 0 <= j < |f.blocks| && 0 <= o < f.blockSize && pos <= Offset(f, j, o) < pos + n ==>
      ByteIsZero(f, b0, last, j, o)
  }

  /** Position of byte `o` of logical block `j`. */
  function Offset(f: Source, j: nat, o: nat): nat {
    j * f.blockSize + o
  }

  /** Byte `o` of logical block `j` is read as it should be if the block is a hole. */
  ghost predicate ByteIsZero(f: Source, b0: nat, last: nat, j: nat, o: nat)
    requires SourceOk(f) && j < |f.blocks| && o < f.blockSize
  {
    f.blocks[j] == 0 && b0 <= j ==> f.disk[Shown(f, b0, last, j)][o] == 0
  }

  lemma ByteAt(f: Source, j: nat, o: nat)
    requires SourceOk(f) && j < |f.blocks| && o < f.blockSize
    ensures Offset(f, j, o) < |f.blocks| * f.blockSize && f.blocks[j] < |f.disk| && |f.disk[f.blocks[j]]| == f.blockSize
    ensures Slice(f, Offset(f, j, o), 1) == [f.disk[f.blocks[j]][o]]
  {
    PartBytes(f, j, o, 1);
    DiskLen(f, j);
  }

  lemma ByteOf(f: Source, p: nat, n: nat, q: nat)
    requires SourceOk(f) && p <= q < p + n <= |f.blocks| * f.blockSize
    ensures |Slice(f, p, n)| == n && [Slice(f, p, n)[q - p]] == Slice(f, q, 1)
  {
    ContentSize(f, |f.blocks|);
  }

  lemma SameByte(f: Source, b0: nat, last: nat, j: nat, o: nat)
    requires SourceOk(f) && j < |f.blocks| && o < f.blockSize
    ensures var w, z := Seen(f, b0, last), Zeroed(f);
      && SourceOk(w) && SourceOk(z) && |w.blocks| == |f.blocks| == |z.blocks|
      && Offset(f, j, o) < |f.blocks| * f.blockSize
      && (Slice(w, Offset(f, j, o), 1) == Slice(z, Offset(f, j, o), 1) <==> ByteIsZero(f, b0, last, j, o))
  {
    var w, z := Seen(f, b0, last), Zeroed(f);
    SeenOk(f, b0, last);
    ByteAt(w, j, o);
    ByteAt(z, j, o);
    assert w.blocks[j] == Shown(f, b0, last, j) && (f.blocks[j] == 0 ==> z.blocks[j] == |f.disk|);
    hide Slice;
  }

  /** Every position belongs to one byte of one block. */
  lemma Position(f: Source, q: nat) returns (j: nat, o: nat)
    requires SourceOk(f) && q < |f.blocks| * f.blockSize
    ensures j < |f.blocks| && o < f.blockSize && Offset(f, j, o) == q
  {
    j, o := q / f.blockSize, q % f.blockSize;
    assert q == j * f.blockSize + o;
    Less(|f.blocks|, j, f.blockSize);
    assert j < |f.blocks|;
  }

  lemma ReadExactly(f: Source, pos: nat, n: nat)
    requires SourceOk(f) && pos + n <= |f.blocks| * f.blockSize
    ensures var w, z := SeenFrom(f, pos, n), Zeroed(f);
      && SourceOk(w) && SourceOk(z) && |w.blocks| == |f.blocks| == |z.blocks|
      && (Slice(w, pos, n) == Slice(z, pos, n) <==> HolesAreZero(f, pos, n))
  {
    var b0, last := FirstWhole(f, pos), LastWhole(f, pos + n);
    var w, z := SeenFrom(f, pos, n), Zeroed(f);
    SeenOk(f, b0, last);
    hide Slice, Seen, Zeroed, ByteIsZero, FirstWhole, LastWhole, Offset;
    SliceSize(w, pos, n);
    SliceSize(z, pos, n);
    forall j, o | 0 <= j < |f.blocks| && 0 <= o < f.blockSize && pos <= Offset(f, j, o) < pos + n
      ensures Slice(w, pos, n)[Offset(f, j, o) - pos] == Slice(z, pos, n)[Offset(f, j, o) - pos] <==>
        ByteIsZero(f, b0, last, j, o)
    {
      SameByte(f, b0, last, j, o);
      ByteOf(w, pos, n, Offset(f, j, o));
      ByteOf(z, pos, n, Offset(f, j, o));
    }
    if ZeroIn(f, b0, last, pos, n) {
      forall i | 0 <= i < n ensures Slice(w, pos, n)[i] == Slice(z, pos, n)[i] {
        var j, o := Position(f, pos + i);
        assert ByteIsZero(f, b0, last, j, o);
      }
    }
  }

  /** Without holes the file is read as it is. */
  lemma NoHoles(f: Source, pos: nat, n: nat)
    requires SourceOk(f) && pos + n <= |f.blocks| * f.blockSize && forall i :: 0 <= i < |f.blocks| ==> f.blocks[i] != 0
    ensures HolesAreZero(f, pos, n)
  {
  }

  /** A hole before a block of ones: the hole is read as ones. */
  method HoleReadsAsNext() returns (f: Source, buf: Bytes, newPos: nat)
    ensures SourceOk(f) && f.blocks == [0, 1] && buf == [1, 1, 1, 1] && newPos == 4
  {
    f := Source(2, [[0, 0], [1, 1]], [0, 1], 4);
    CaseBytes(f);
    hide HolesAreZero, Zeroed, Slice, Seen;
    buf, newPos := Read(f, 0, 4);
  }

  lemma CaseBytes(f: Source)
    requires f == Source(2, [[0, 0], [1, 1]], [0, 1], 4)
    ensures SourceOk(f) && SourceOk(SeenFrom(f, 0, 4)) && |SeenFrom(f, 0, 4).blocks| == 2
    ensures Slice(SeenFrom(f, 0, 4), 0, 4) == [1, 1, 1, 1]
  {
    var w := SeenFrom(f, 0, 4);
    SeenOk(f, 0, 2);
    assert FirstWhole(f, 0) == 0 && LastWhole(f, 4) == 2;
    assert |w.blocks| == 2 && w.blocks[0] == 1 && w.blocks[1] == 1 && w.disk[1] == [1, 1];
    assert Content(w, 0) == [] && Content(w, 1) == [1, 1] && Content(w, 2) == [1, 1, 1, 1];
  }

  lemma LastIs(f: Source, end: nat)
    requires SourceOk(f) && end <= f.size
    ensures var last := LastWhole(f, end);
      last * f.blockSize <= end < last * f.blockSize + f.blockSize && end <= |f.blocks| * f.blockSize
  {
    var last := end / f.blockSize;
    assert end == last * f.blockSize + end % f.blockSize;
  }

  lemma InsideFile(f: Source, pos: nat)
    requires SourceOk(f) && pos <= f.size
    ensures f.blockSize > 0 && f.size <= |f.blocks| * f.blockSize && Inside(f, pos)
  {
    if pos == |f.blocks| * f.blockSize {
      Multiple(|f.blocks|, f.blockSize);
    }
  }

  lemma Multiple(n: nat, bs: nat)
    requires bs > 0
    ensures n * bs % bs == 0
  {
    var q, r := n * bs / bs, n * bs % bs;
    assert n * bs == q * bs + r;
    Less(q, n, bs);
    Less(n, q, bs);
  }

  lemma Start(f: Source, idx: nat, p: nat, size: nat, end: nat, last: nat)
    requires SourceOk(f) && p == idx * f.blockSize && p + size == end <= |f.blocks| * f.blockSize
    requires last * f.blockSize <= end < last * f.blockSize + f.blockSize
    ensures Aligned(f, idx, p, size, end, last)
  {
  }

  lemma SliceSize(f: Source, p: nat, n: nat)
    requires SourceOk(f) && p + n <= |f.blocks| * f.blockSize
    ensures |Slice(f, p, n)| == n
  {
    ContentSize(f, |f.blocks|);
  }

  lemma DiskLen(f: Source, i: nat)
    requires SourceOk(f) && i < |f.blocks|
    ensures f.blocks[i] < |f.disk| && |f.disk[f.blocks[i]]| == f.blockSize
  {
  }
}
