/** Progress of writing one transaction's descriptor blocks, data blocks and revoke blocks. */
module JbdWrite {
  import opened JbdFormat
  import opened JbdLog
  import opened JbdRecover
  import opened JbdText
  import opened JbdHistory
  import opened JbdRing
  import opened JbdState
  import opened JbdTags

  /** A buffer of a transaction; `dirty` says whether it was modified. */
  datatype Buf = Buf(lba: nat, dirty: bool, data: Block)

  /** What the modified buffers log, in queue order. */
  function DirtyOf(bufs: seq<Buf>): seq<Logged> {
    if bufs == [] then []
    else (if bufs[0].dirty then [Logged(bufs[0].lba, bufs[0].data)] else []) + DirtyOf(bufs[1..])
  }

  lemma {:induction false} DirtySnoc(bufs: seq<Buf>, i: nat)
    requires i < |bufs|
    ensures DirtyOf(bufs[..i + 1]) ==
      DirtyOf(bufs[..i]) + if bufs[i].dirty then [Logged(bufs[i].lba, bufs[i].data)] else []
    decreases i
  {
    if i == 0 {
      assert bufs[..1] == [bufs[0]] && [bufs[0]][1..] == [] && bufs[..0] == [];
    } else {
      DirtySnoc(bufs[1..], i - 1);
      assert bufs[..i + 1][1..] == bufs[1..][..i] && bufs[..i][1..] == bufs[1..][..i - 1];
    }
  }

  lemma {:induction false} DirtyMore(bufs: seq<Buf>, i: nat, k: nat)
    requires i <= k <= |bufs|
    ensures |DirtyOf(bufs[..i])| <= |DirtyOf(bufs[..k])|
    decreases k
  {
    if i < k {
      DirtySnoc(bufs, k - 1);
      DirtyMore(bufs, i, k - 1);
    }
  }

  // ----- how many blocks are needed -----

  /** Tags that fit into one descriptor block. */
  function Cap(g: Geometry): nat {
    if g.words < 10 then 1 else (g.words - 7) / TagWords(g)
  }

  /** Blocks for `n` more copies when the open descriptor has room for `room` more tags. */
  function Need(g: Geometry, n: nat, room: nat): nat
    decreases n, if room == 0 then 1 else 0
  {
    if n == 0 then 0
    else if room == 0 then 1 + Need(g, n, if Cap(g) == 0 then 1 else Cap(g))
    else 1 + Need(g, n - 1, room - 1)
  }

  /** Addresses that fit into one revoke block. */
  function RevokeCap(g: Geometry): nat {
    if g.words < 6 then 1 else (g.words - 4) / RecordWords(g)
  }

  function NeedRevoke(g: Geometry, n: nat, room: nat): nat
    decreases n, if room == 0 then 1 else 0
  {
    if n == 0 then 0
    else if room == 0 then 1 + NeedRevoke(g, n, if RevokeCap(g) == 0 then 1 else RevokeCap(g))
    else NeedRevoke(g, n - 1, room - 1)
  }

  /** All blocks of a transaction that logs `n` copies and `m` revocations. */
  function TxnBlocks(g: Geometry, n: nat, m: nat): nat {
    Need(g, n, 0) + NeedRevoke(g, m, 0) + 1
  }

  // ----- the descriptor being filled -----

  datatype Cursor = Closed | Open(pos: nat, desc: Block, p: nat)

  function Room(g: Geometry, c: Cursor): nat {
    match c
    case Closed => 0
    case Open(_, _, p) => if p == 3 then Cap(g) else if p > g.words then 0 else (g.words - p) / TagWords(g)
  }

  /** The descriptor in hand, not on the ring yet, describes the data blocks behind its place. */
  ghost predicate Filling(g: Geometry, id: Word, desc: Block, p: nat, tags: seq<Tag>, ds: seq<Block>, cs: seq<Logged>) {
    && |desc| == g.words && Header(desc, DESCRIPTOR, id)
    && TableAt(g, desc, 3, tags, p) && 3 <= p <= g.words && (!g.wide ==> p % 2 == 1)
    && (tags == [] <==> p == 3)
    && ChunkOk(tags, ds, cs)
    && forall i :: 0 <= i < |tags| - 1 ==> !tags[i].last
  }

  /**
   * The copies `cs` are on the ring: those of the first `n` with their descriptors in the first
   * `closed` blocks of the transaction, the others behind an open descriptor with the given tags.
   * On a clean ring the place of the open descriptor does not look like a record of this transaction.
   */
  ghost predicate Writing(j: State, c: Cursor, cs: seq<Logged>, closed: nat, n: nat, tags: seq<Tag>) {
    && Ok(j) && closed <= j.cur && n <= |cs|
    && ReadsAs(j.g, CurId(j), V(j)[..closed], cs[..n])
    && match c
       case Closed => closed == j.cur && n == |cs| && tags == []
       case Open(pos, desc, p) =>
         && closed < j.cur && pos == At(j.g, j.from, closed)
         && (j.clean ==> !Marked(V(j)[closed], CurId(j)))
         && Filling(j.g, CurId(j), desc, p, tags, V(j)[closed + 1..j.cur], cs[n..])
  }

  lemma WritingOk(j: State, c: Cursor, cs: seq<Logged>, closed: nat, n: nat, tags: seq<Tag>)
    requires Writing(j, c, cs, closed, n, tags)
    ensures Ok(j) && GeometryOk(j.g) && |V(j)| == Length(j.g) && j.cur <= Length(j.g) && RingOk(j.g, j.ring)
  {
  }

  lemma WritingStart(j: State)
    requires Ok(j) && j.cur == 0
    ensures Writing(j, Closed, [], 0, 0, [])
  {
    assert V(j)[..0] == [];
  }

  /** The queue may shrink meanwhile. */
  lemma WritingSame(j: State, j': State, c: Cursor, cs: seq<Logged>, closed: nat, n: nat, tags: seq<Tag>)
    requires Writing(j, c, cs, closed, n, tags) && Ok(j') && V(j') == V(j) && CurId(j') == CurId(j)
    requires j'.g == j.g && j'.from == j.from && j'.cur == j.cur && j'.clean == j.clean
    ensures Writing(j', c, cs, closed, n, tags)
  {
  }

  function WithHeader(b: Block, kind: Word, id: Word): Block
    requires |b| >= 4
  {
    b[0 := MAGIC][1 := kind][2 := id]
  }

  /** The block behind the transaction being written does not look like a record of it. */
  lemma NextUnmarked(j: State)
    requires Ok(j) && Total(j.queue) + j.cur < Length(j.g)
    ensures j.cur < |V(j)| && (j.clean ==> !Marked(V(j)[j.cur], CurId(j)))
  {
    if j.clean {
      var rest := V(j)[j.cur..Length(j.g) - Total(j.queue)];
      assert rest[0] == V(j)[j.cur];
      assert Id(CurId(j), 0) == CurId(j);
    }
  }

  /** A new descriptor takes the block just allocated. */
  lemma OpenDescriptor(j: State, cs: seq<Logged>, closed: nat, n: nat, j': State, b: Block)
    requires Writing(j, Closed, cs, closed, n, []) && Ok(j') && V(j') == V(j) && CurId(j') == CurId(j)
    requires j'.g == j.g && j'.from == j.from && j'.cur == j.cur + 1 && |b| == j.g.words
    requires j'.clean == j.clean && Total(j.queue) + j.cur < Length(j.g)
    ensures Writing(j', Open(At(j.g, j.from, j.cur), WithHeader(b, DESCRIPTOR, CurId(j)), 3), cs, closed, n, [])
  {
    hide Shape, Text, CurId, V, ReadsAs;
    WritingOk(j, Closed, cs, closed, n, []);
    NextUnmarked(j);
    ViewLength(j');
    assert V(j')[closed + 1..j'.cur] == [] && cs[n..] == [];
    assert TableAt(j.g, WithHeader(b, DESCRIPTOR, CurId(j)), 3, [], 3);
  }

  lemma ViewLength(j: State)
    requires Ok(j)
    ensures |V(j)| == Length(j.g) && j.cur <= Length(j.g)
  {
  }

  /** A tag was written, and the data block behind it. */
  lemma AddCopy(j: State, pos: nat, desc: Block, p: nat, cs: seq<Logged>, closed: nat, n: nat, tags: seq<Tag>,
                j': State, desc': Block, tag: Tag, d: Block, l: Logged)
    requires Writing(j, Open(pos, desc, p), cs, closed, n, tags)
    requires Ok(j') && CurId(j') == CurId(j) && j'.g == j.g && j'.from == j.from && j'.cur == j.cur + 1
    requires j'.cur <= Length(j.g) && |V(j)| == Length(j.g) && j'.clean == j.clean
    requires V(j') == V(j)[j.cur := d]
    requires |desc'| == |desc| && (forall i :: 0 <= i < p ==> desc'[i] == desc[i]) &&
      ReadTag(j.g, desc', p) == Some(tag)
    requires tag.uuid <==> p == 3
    requires forall i :: 0 <= i < |tags| ==> !tags[i].last
    requires d != [] && d[0] != MAGIC && tag.block == l.block && Unescape(d, tag.escape) == l.data
    ensures Writing(j', Open(pos, desc', p + TagSize(j.g, tag)), cs + [l], closed, n, tags + [tag])
  {
    hide Shape, Text, CurId, ReadsAs, V, ReadTag;
    var v, v' := V(j), V(j');
    var cs' := cs + [l];
    assert v'[..closed] == v[..closed] && cs'[..n] == cs[..n];
    assert v'[closed + 1..j'.cur] == v[closed + 1..j.cur] + [d] && cs'[n..] == cs[n..] + [l];
    FillMore(j.g, CurId(j), desc, p, tags, v[closed + 1..j.cur], cs[n..], desc', tag, d, l);
  }

  lemma FillMore(g: Geometry, id: Word, desc: Block, p: nat, tags: seq<Tag>, ds: seq<Block>, cs: seq<Logged>,
                 desc': Block, tag: Tag, d: Block, l: Logged)
    requires Filling(g, id, desc, p, tags, ds, cs) && |desc'| == |desc|
    requires (forall i :: 0 <= i < p ==> desc'[i] == desc[i]) && ReadTag(g, desc', p) == Some(tag)
    requires tag.uuid <==> p == 3
    requires forall i :: 0 <= i < |tags| ==> !tags[i].last
    requires d != [] && d[0] != MAGIC && tag.block == l.block && Unescape(d, tag.escape) == l.data
    ensures Filling(g, id, desc', p + TagSize(g, tag), tags + [tag], ds + [d], cs + [l])
  {
    TableFrame(g, desc, desc', 3, tags, p);
    TableSnoc(g, desc', 3, tags, p, tag);
    hide ReadTag, TableAt;
  }

  /** The descriptor is put in its place: everything so far can be read back. */
  lemma CloseDescriptor(j: State, pos: nat, desc: Block, p: nat, cs: seq<Logged>, closed: nat, n: nat,
                        tags: seq<Tag>, j': State)
    requires Writing(j, Open(pos, desc, p), cs, closed, n, tags) && tags != []
    requires p + TagWords(j.g) > j.g.words || tags[|tags| - 1].last
    requires |V(j)| == Length(j.g) && j.cur <= Length(j.g)
    requires Ok(j') && CurId(j') == CurId(j) && j'.g == j.g && j'.from == j.from && j'.cur == j.cur
    requires V(j') == V(j)[closed := desc]
    ensures Writing(j', Closed, cs, j.cur, |cs|, [])
  {
    hide Shape, Text, CurId, V, ReadsAs, Filling;
    var v, v' := V(j), V(j');
    var ds := v[closed + 1..j.cur];
    FillingReads(j.g, CurId(j), desc, p, tags, ds, cs[n..]);
    ReadsAppend(j.g, CurId(j), v[..closed], cs[..n], [desc] + ds, cs[n..]);
    assert v'[..j.cur] == v[..closed] + ([desc] + ds);
    assert cs[..n] + cs[n..] == cs == cs[..|cs|];
  }

  lemma FillingReads(g: Geometry, id: Word, desc: Block, p: nat, tags: seq<Tag>, ds: seq<Block>, cs: seq<Logged>)
    requires Filling(g, id, desc, p, tags, ds, cs) && tags != []
    requires p + TagWords(g) > g.words || tags[|tags| - 1].last
    ensures ReadsAs(g, id, [desc] + ds, cs)
  {
    TableRead(g, desc, 3, tags, p);
    assert TableOf(g, desc) == tags;
    hide TableAt, Tags, TableOf, ReadTag, Header, ChunkOk;
    var bs := [desc] + ds;
    var n := |tags|;
    assert ReadsAs(g, id, [], []);
    assert |ds| == n == |cs| by {
      ChunkLengths(tags, ds, cs);
    }
    assert |bs| == 1 + n && bs[1..] == ds;
    assert bs[1..1 + n] == bs[1..];
    assert bs[0] == desc && bs[1 + n..] == [] && cs[..n] == cs && cs[n..] == [];
  }

  lemma ChunkLengths(tags: seq<Tag>, ds: seq<Block>, cs: seq<Logged>)
    requires ChunkOk(tags, ds, cs)
    ensures |tags| == |ds| == |cs|
  {
  }

  // ----- room -----

  lemma RoomOpen(g: Geometry, pos: nat, desc: Block)
    requires GeometryOk(g)
    ensures Room(g, Open(pos, desc, 3)) == Cap(g) > 0
  {
  }

  lemma RoomTag(g: Geometry, id: Word, pos: nat, desc: Block, p: nat, tags: seq<Tag>, ds: seq<Block>,
                cs: seq<Logged>, tag: Tag, desc': Block)
    requires GeometryOk(g) && Filling(g, id, desc, p, tags, ds, cs) && (tag.uuid <==> p == 3)
    ensures p + TagSize(g, tag) <= g.words <==> Room(g, Open(pos, desc, p)) > 0
    ensures p + TagSize(g, tag) <= g.words ==>
      Room(g, Open(pos, desc', p + TagSize(g, tag))) == Room(g, Open(pos, desc, p)) - 1
  {
  }

  // ----- revoke blocks -----

  /** The revoke block being filled, with its place. */
  datatype RevokeCursor = NoBlock | Listing(pos: nat, b: Block, k: nat)

  function RevokeRoom(g: Geometry, c: RevokeCursor): nat {
    match c
    case NoBlock => 0
    case Listing(_, _, k) => if k > RevokeCap(g) then 0 else RevokeCap(g) - k
  }

  /** The address at place `i` of a revoke block, whatever its count says. */
  function ListedAt(g: Geometry, b: Block, i: nat): nat
    requires 4 + (i + 1) * RecordWords(g) <= |b|
  {
    if g.wide then b[4 + 2 * i] * WORD_LIMIT + b[5 + 2 * i] else b[4 + i]
  }

  ghost predicate Listed(g: Geometry, id: Word, b: Block, rs: seq<nat>) {
    && |b| == g.words && Header(b, REVOKE, id)
    && 4 + |rs| * RecordWords(g) <= |b|
    && forall i :: 0 <= i < |rs| ==> 4 + (i + 1) * RecordWords(g) <= |b| && ListedAt(g, b, i) == rs[i]
  }

  function WithAddress(g: Geometry, b: Block, k: nat, block: nat): Block
    requires 4 + (k + 1) * RecordWords(g) <= |b| && AddressFits(g, block)
  {
    if g.wide then b[4 + 2 * k := block / WORD_LIMIT][5 + 2 * k := block % WORD_LIMIT] else b[4 + k := block]
  }

  lemma ListMore(g: Geometry, id: Word, b: Block, rs: seq<nat>, block: nat)
    requires Listed(g, id, b, rs) && 4 + (|rs| + 1) * RecordWords(g) <= |b| && AddressFits(g, block)
    ensures Listed(g, id, WithAddress(g, b, |rs|, block), rs + [block])
  {
    if g.wide {
      AddressParts(block);
    }
  }

  /** The byte count makes the reader find exactly the listed addresses. */
  lemma ListedReads(g: Geometry, id: Word, b: Block, rs: seq<nat>)
    requires Listed(g, id, b, rs) && GeometryOk(g)
    ensures 16 + 4 * RecordWords(g) * |rs| < WORD_LIMIT
    ensures var b' := b[3 := 16 + 4 * RecordWords(g) * |rs|];
      Header(b', REVOKE, id) && CountOk(b') && Revokes(g, b') == rs
  {
    var b' := b[3 := 16 + 4 * RecordWords(g) * |rs|];
    assert RevokeCount(g, b') == |rs|;
    forall i | 0 <= i < |rs| ensures RevokeAt(g, b', i) == rs[i] {
      assert ListedAt(g, b, i) == rs[i];
    }
  }

  /** As `Writing`, for the revoke blocks behind the first `base` blocks of the transaction. */
  ghost predicate RevokeWriting(j: State, base: nat, c: RevokeCursor, rs: seq<nat>, closed: nat, n: nat) {
    && Ok(j) && base <= closed <= j.cur && n <= |rs|
    && RevokesAs(j.g, CurId(j), V(j)[base..closed], rs[..n])
    && match c
       case NoBlock => closed == j.cur && n == |rs|
       case Listing(pos, b, k) =>
         && closed + 1 == j.cur && pos == At(j.g, j.from, closed)
         && (j.clean ==> !Marked(V(j)[closed], CurId(j)))
         && k == |rs| - n && 0 < k && Listed(j.g, CurId(j), b, rs[n..])
  }

  lemma RevokingStart(j: State, base: nat)
    requires Ok(j) && j.cur == base
    ensures RevokeWriting(j, base, NoBlock, [], base, 0)
  {
    assert V(j)[base..base] == [];
  }

  lemma RevokingSame(j: State, j': State, base: nat, c: RevokeCursor, rs: seq<nat>, closed: nat, n: nat)
    requires RevokeWriting(j, base, c, rs, closed, n) && Ok(j') && V(j') == V(j) && CurId(j') == CurId(j)
    requires j'.g == j.g && j'.from == j.from && j'.cur == j.cur && j'.clean == j.clean
    ensures RevokeWriting(j', base, c, rs, closed, n)
  {
  }

  /** A new revoke block with its first address. */
  lemma OpenRevoke(j: State, base: nat, rs: seq<nat>, closed: nat, n: nat, j': State, b: Block, block: nat)
    requires RevokeWriting(j, base, NoBlock, rs, closed, n) && Ok(j') && V(j') == V(j) && CurId(j') == CurId(j)
    requires j'.g == j.g && j'.from == j.from && j'.cur == j.cur + 1 && |b| == j.g.words && GeometryOk(j.g)
    requires AddressFits(j.g, block) && j'.clean == j.clean && Total(j.queue) + j.cur < Length(j.g)
    ensures 4 + RecordWords(j.g) <= |b|
    ensures RevokeWriting(j', base, Listing(At(j.g, j.from, j.cur),
      WithAddress(j.g, WithHeader(b, REVOKE, CurId(j)), 0, block), 1),
                      rs + [block], closed, n)
  {
    hide Shape, Text, CurId, V, RevokesAs;
    NextUnmarked(j);
    var h := WithHeader(b, REVOKE, CurId(j));
    assert Listed(j.g, CurId(j), h, []);
    ListMore(j.g, CurId(j), h, [], block);
    assert (rs + [block])[n..] == [] + [block] && (rs + [block])[..n] == rs[..n];
  }

  lemma MoreRevoke(j: State, base: nat, pos: nat, b: Block, k: nat, rs: seq<nat>, closed: nat, n: nat, block: nat)
    requires RevokeWriting(j, base, Listing(pos, b, k), rs, closed, n) && k < RevokeCap(j.g) && GeometryOk(j.g)
    requires AddressFits(j.g, block)
    ensures 4 + (k + 1) * RecordWords(j.g) <= |b|
    ensures RevokeWriting(j, base, Listing(pos, WithAddress(j.g, b, k, block), k + 1), rs + [block], closed, n)
  {
    hide Shape, Text, CurId, V, RevokesAs, WithAddress;
    CapFits(j.g, k);
    assert |b| == j.g.words;
    ListMore(j.g, CurId(j), b, rs[n..], block);
    assert (rs + [block])[n..] == rs[n..] + [block] && (rs + [block])[..n] == rs[..n];
  }

  lemma CapFits(g: Geometry, k: nat)
    requires GeometryOk(g) && k < RevokeCap(g)
    ensures 4 + (k + 1) * RecordWords(g) <= g.words
  {
  }

  lemma CloseRevoke(j: State, base: nat, pos: nat, b: Block, k: nat, rs: seq<nat>, closed: nat, n: nat, j': State,
                    b': Block)
    requires RevokeWriting(j, base, Listing(pos, b, k), rs, closed, n) && GeometryOk(j.g)
    requires 16 + 4 * RecordWords(j.g) * k < WORD_LIMIT && |b| == j.g.words
    requires b' == b[3 := 16 + 4 * RecordWords(j.g) * k]
    requires |V(j)| == Length(j.g) && j.cur <= Length(j.g)
    requires Ok(j') && CurId(j') == CurId(j) && j'.g == j.g && j'.from == j.from && j'.cur == j.cur
    requires V(j') == V(j)[closed := b']
    ensures RevokeWriting(j', base, NoBlock, rs, j.cur, |rs|)
  {
    hide Shape, Text, CurId, V, Listed, Revokes, RevokesAs;
    var v := V(j);
    ListedReads(j.g, CurId(j), b, rs[n..]);
    OneRevokeBlock(j.g, CurId(j), b', rs[n..]);
    RevokesAppend(j.g, CurId(j), v[base..closed], rs[..n], [b'], rs[n..]);
    assert v[closed := b'][base..j.cur] == v[base..closed] + [b'];
    assert rs[..n] + rs[n..] == rs == rs[..|rs|];
  }

  lemma OneRevokeBlock(g: Geometry, id: Word, b: Block, rs: seq<nat>)
    requires Header(b, REVOKE, id) && CountOk(b) && Revokes(g, b) == rs
    ensures RevokesAs(g, id, [b], rs)
  {
    assert [b][1..] == [] && rs[..|rs|] == rs && rs[|rs|..] == [];
  }

  /** Descriptors, revoke blocks and a commit block make a transaction. */
  lemma WholeTxn(j: State, base: nat, cs: seq<Logged>, rs: seq<nat>, j': State, b: Block)
    requires RevokeWriting(j, base, NoBlock, rs, j.cur, |rs|) && ReadsAs(j.g, CurId(j), V(j)[..base], cs)
    requires |V(j)| == Length(j.g) && j.cur < Length(j.g)
    requires Ok(j') && CurId(j') == CurId(j) && j'.g == j.g && j'.cur == j.cur + 1
    requires V(j') == V(j)[j.cur := b] && Header(b, COMMIT, CurId(j))
    ensures TxnReads(j.g, CurId(j), V(j')[..j'.cur], cs, rs)
  {
    hide Shape, Text, CurId, V, ReadsAs, RevokesAs;
    var v, seg := V(j), V(j')[..j'.cur];
    assert seg[..base] == v[..base];
    assert seg[base..base + (j.cur - base)] == v[base..j.cur] && rs[..|rs|] == rs;
    assert SplitReads(j.g, CurId(j), seg, cs, rs, base, j.cur - base);
  }
}
