/** Writing block tags into a descriptor block, and why the reader finds exactly them. */
module JbdTags {
  import opened JbdFormat

  function FlagWord(tag: Tag): Word {
    (if tag.escape then 1 else 0) + (if tag.uuid then 0 else 2) + if tag.last then 8 else 0
  }

  /** The block number can be stored in a tag. */
  predicate AddressFits(g: Geometry, block: nat) {
    block < if g.wide then WORD_LIMIT * WORD_LIMIT else WORD_LIMIT
  }

  lemma FlagsRead(tag: Tag)
    ensures FlagWord(tag) % HALF == FlagWord(tag)
    ensures Flag(FlagWord(tag), 1) == tag.escape
    ensures Flag(FlagWord(tag), 2) == !tag.uuid
    ensures Flag(FlagWord(tag), 8) == tag.last
  {
  }

  lemma AddressParts(block: nat)
    requires block < WORD_LIMIT * WORD_LIMIT
    ensures block / WORD_LIMIT < WORD_LIMIT
    ensures block % WORD_LIMIT + block / WORD_LIMIT * WORD_LIMIT == block
  {
  }

  /**
   * Write a tag at word `p`.  The source clears three words even where a tag has two; blocks of an
   * even number of words always have room for that.
   */
  method WriteTag(g: Geometry, b: Block, p: nat, tag: Tag, uuid: seq<Word>) returns (ok: bool, b': Block)
    requires |uuid| == 4 && |b| % 2 == 0 && AddressFits(g, tag.block)
    requires !g.wide ==> p % 2 == 1
    requires tag.uuid ==> p + TagSize(g, tag) <= |b|
    ensures ok <==> p + TagSize(g, tag) <= |b|
    ensures !ok ==> b' == b
    ensures |b'| == |b| && forall i :: 0 <= i < p && i < |b| ==> b'[i] == b[i]
    ensures ok ==> ReadTag(g, b', p) == Some(tag)
    ensures ok && tag.uuid ==> b'[p + TagWords(g)..p + TagWords(g) + 4] == uuid
    ensures ok ==> forall i :: (if tag.uuid then p + TagSize(g, tag) else p + 3) <= i < |b| ==> b'[i] == b[i]
    ensures ok && !g.wide && !tag.uuid ==> p + 2 < |b| && b'[p + 2] == 0
  {
    b' := b;
    if p + TagWords(g) > |b| {
      return false, b;
    }
    FlagsRead(tag);
    AddressParts(tag.block % (WORD_LIMIT * WORD_LIMIT));
    b' := b'[p := 0][p + 1 := 0][p + 2 := 0];
    b' := b'[p := tag.block % WORD_LIMIT];
    if g.wide {
      b' := b'[p + 2 := tag.block / WORD_LIMIT];
    }
    b' := b'[p + 1 := FlagWord(tag)];
    if tag.uuid {
      var at := p + TagWords(g);
      b' := b'[at := uuid[0]][at + 1 := uuid[1]][at + 2 := uuid[2]][at + 3 := uuid[3]];
    }
    ok := true;
  }

  // ----- tables -----

  /** The tags stand one behind the other in the words from `q` to `p`. */
  ghost predicate TableAt(g: Geometry, b: Block, q: nat, tags: seq<Tag>, p: nat)
    decreases tags
  {
    if tags == [] then q == p
    else ReadTag(g, b, q) == Some(tags[0]) && TableAt(g, b, q + TagSize(g, tags[0]), tags[1..], p)
  }

  lemma {:induction false} TableSnoc(g: Geometry, b: Block, q: nat, tags: seq<Tag>, p: nat, tag: Tag)
    requires TableAt(g, b, q, tags, p) && ReadTag(g, b, p) == Some(tag)
    ensures TableAt(g, b, q, tags + [tag], p + TagSize(g, tag))
    decreases tags
  {
    if tags == [] {
      assert (tags + [tag])[1..] == [];
    } else {
      TableSnoc(g, b, q + TagSize(g, tags[0]), tags[1..], p, tag);
      assert (tags + [tag])[1..] == tags[1..] + [tag];
    }
  }

  lemma {:induction false} TableFrame(g: Geometry, b: Block, b': Block, q: nat, tags: seq<Tag>, p: nat)
    requires TableAt(g, b, q, tags, p) && |b'| == |b|
    requires forall i :: 0 <= i < p && i < |b| ==> b'[i] == b[i]
    ensures TableAt(g, b', q, tags, p) && q <= p
    decreases tags
  {
    if tags != [] {
      var q' := q + TagSize(g, tags[0]);
      TableFrame(g, b, b', q', tags[1..], p);
      assert forall i :: q <= i < q' ==> b'[i] == b[i];
    }
  }

  /** A table that ends with a last-tag mark, or at the end of the block, is read back completely. */
  lemma {:induction false} TableRead(g: Geometry, b: Block, q: nat, tags: seq<Tag>, p: nat)
    requires TableAt(g, b, q, tags, p)
    requires forall i :: 0 <= i < |tags| - 1 ==> !tags[i].last
    requires (tags != [] && tags[|tags| - 1].last) || p + TagWords(g) > |b|
    ensures Tags(g, b, q) == tags
    decreases tags
  {
    if tags != [] {
      var rest := tags[1..];
      if tags[0].last {
        assert |tags| == 1;
        assert tags == [tags[0]];
      } else {
        forall i | 0 <= i < |rest| - 1 ensures !rest[i].last {
          assert rest[i] == tags[i + 1];
        }
        assert rest != [] ==> rest[|rest| - 1] == tags[|tags| - 1];
        TableRead(g, b, q + TagSize(g, tags[0]), rest, p);
        assert tags == [tags[0]] + rest;
      }
    }
  }
}
