/**
 * The on-disk form of a JBD journal without the checksum features: blocks are sequences
 * of 32-bit words, a record starts with three header words, a descriptor block lists the
 * home addresses of the data blocks that follow it, a revoke block lists addresses.
 */
module JbdFormat {

  const MAGIC: Word := 0xC03B3998
  const DESCRIPTOR: Word := 1
  const COMMIT: Word := 2
  const REVOKE: Word := 5

  const WORD_LIMIT: nat := 0x1_0000_0000
  const HALF: nat := 0x1_0000

  type Word = x: nat | x < 0x1_0000_0000
  type Block = seq<Word>

  /** Words per block, first and one-past-last block of the log area, and the 64-bit feature. */
  datatype Geometry = Geometry(words: nat, first: nat, maxlen: nat, wide: bool)

  ghost predicate GeometryOk(g: Geometry) {
    256 <= g.words && g.words % 2 == 0 && 4 * g.words < WORD_LIMIT && 0 < g.first < g.maxlen &&
        g.maxlen - g.first < 0x8000_0000
  }

  function Length(g: Geometry): nat
    requires g.first <= g.maxlen
  {
    g.maxlen - g.first
  }

  ghost predicate RingOk(g: Geometry, ring: seq<Block>) {
    |ring| == g.maxlen && forall i :: 0 <= i < |ring| ==> |ring[i]| == g.words
  }

  datatype Option<T> = None | Some(value: T)

  // ----- block tags -----

  datatype Tag = Tag(block: nat, escape: bool, last: bool, uuid: bool)

  function TagWords(g: Geometry): nat {
    if g.wide then 3 else 2
  }

  function TagSize(g: Geometry, tag: Tag): nat {
    TagWords(g) + if tag.uuid then 4 else 0
  }

  function Flag(word: nat, bit: nat): bool
    requires bit > 0
  {
    (word / bit) % 2 == 1
  }

  /** The tag at word `p`, unless the rest of the block is too small for it. */
  function ReadTag(g: Geometry, b: Block, p: nat): (r: Option<Tag>)
    ensures r.Some? ==> p + TagSize(g, r.value) <= |b|
  {
    if p + TagWords(g) > |b| then None
    else
      var flags := b[p + 1] % HALF;
      var block := b[p] + if g.wide then b[p + 2] * WORD_LIMIT else 0;
      var tag := Tag(block, Flag(flags, 1), Flag(flags, 8), !Flag(flags, 2));
      if tag.uuid && p + TagWords(g) + 4 > |b| then None else Some(tag)
  }

  /** All tags of a descriptor block from word `p` on. */
  function Tags(g: Geometry, b: Block, p: nat): seq<Tag>
    decreases |b| - p
  {
    if p >= |b| then []
    else match ReadTag(g, b, p)
      case None => []
      case Some(tag) => [tag] + if tag.last then [] else Tags(g, b, p + TagSize(g, tag))
  }

  function TableOf(g: Geometry, b: Block): seq<Tag> {
    Tags(g, b, 3)
  }

  // ----- revoke records -----

  function RecordWords(g: Geometry): nat {
    if g.wide then 2 else 1
  }

  /** The byte count of a revoke block stays inside the block. */
  predicate CountOk(b: Block) {
    4 <= |b| && 16 <= b[3] <= 4 * |b|
  }

  function RevokeCount(g: Geometry, b: Block): (n: nat)
    requires CountOk(b)
    ensures 4 + n * RecordWords(g) <= |b|
  {
    (b[3] - 16) / (4 * RecordWords(g))
  }

  function RevokeAt(g: Geometry, b: Block, i: nat): nat
    requires CountOk(b) && i < RevokeCount(g, b)
  {
    if g.wide then b[4 + 2 * i] * WORD_LIMIT + b[5 + 2 * i] else b[4 + i]
  }

  function Revokes(g: Geometry, b: Block): seq<nat>
    requires CountOk(b)
  {
    seq(RevokeCount(g, b), i requires 0 <= i < RevokeCount(g, b) => RevokeAt(g, b, i))
  }

  // ----- the layout, written out -----

  /** A tag has two words, or three with the 64-bit feature, and four more for the uuid. */
  lemma TagLayout(g: Geometry, b: Block, p: nat)
    requires p + 7 <= |b|
    ensures ReadTag(g, b, p).Some?
    ensures var tag := ReadTag(g, b, p).value;
      && tag.block == b[p] + (if g.wide then b[p + 2] * WORD_LIMIT else 0)
      && TagSize(g, tag) == (if g.wide then 3 else 2) + (if Flag(b[p + 1] % 0x1_0000, 2) then 0 else 4)
      && (tag.escape <==> Flag(b[p + 1] % 0x1_0000, 1)) && (tag.last <==> Flag(b[p + 1] % 0x1_0000, 8))
  {
  }

  /** Behind four words the addresses follow each other, in one word each, or in two with the high one first. */
  lemma RevokeLayout(g: Geometry, b: Block, i: nat)
    requires CountOk(b) && i < |Revokes(g, b)|
    ensures if g.wide then
        |Revokes(g, b)| == (b[3] - 16) / 8 && 5 + 2 * i < |b| &&
        Revokes(g, b)[i] == b[4 + 2 * i] * WORD_LIMIT + b[5 + 2 * i]
      else |Revokes(g, b)| == (b[3] - 16) / 4 && 4 + i < |b| && Revokes(g, b)[i] == b[4 + i]
  {
  }
}
