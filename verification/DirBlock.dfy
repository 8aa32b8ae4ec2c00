/** A linear directory block: records that tile the block, each with a name, free, or the checksum tail. */
module DirBlock {

  type Name = seq<int>

  datatype Err = EOK | ENOENT | ENOSPC

  /** A directory record: inode number (0 when unused), length of the record, name, whether it is the checksum tail. */
  datatype Rec = Rec(inode: nat, len: nat, name: Name, tail: bool)

  function Align(n: nat): nat {
    if n % 4 == 0 then n else n + 4 - n % 4
  }

  /** Bytes a record with this name needs: an 8-byte header and the name, rounded up to a multiple of 4. */
  function Need(name: Name): nat {
    Align(8 + |name|)
  }

  lemma NeedIs(name: Name)
    ensures 8 + |name| <= Need(name) < 12 + |name| && Need(name) % 4 == 0
  {
    var n := 8 + |name|;
    if n % 4 != 0 {
      assert (n + 4 - n % 4) % 4 == 0;
    }
  }

  function Sum(recs: seq<Rec>): nat {
    if recs == [] then 0 else recs[0].len + Sum(recs[1..])
  }

  ghost predicate RecOk(r: Rec) {
    && r.len > 0 && r.len % 4 == 0
    && (r.inode != 0 ==> Need(r.name) <= r.len && |r.name| > 0 && !r.tail)
  }

  ghost predicate Unique(recs: seq<Rec>) {
    forall i, j :: 0 <= i < j < |recs| && recs[i].inode != 0 && recs[j].inode != 0 ==> recs[i].name != recs[j].name
  }

  /** The records tile the block exactly, and no name occurs twice. */
  ghost predicate WellFormed(size: nat, recs: seq<Rec>) {
    Sum(recs) == size && (forall i :: 0 <= i < |recs| ==> RecOk(recs[i])) && Unique(recs)
  }

  /** The directory as a map from names to inode numbers. */
  ghost function Names(recs: seq<Rec>): map<Name, nat> {
    if recs == [] then map[]
    else
      var r, m := recs[|recs| - 1], Names(recs[..|recs| - 1]);
      if r.inode == 0 then m else m[r.name := r.inode]
  }

  lemma {:induction false} NamesAt(recs: seq<Rec>, name: Name)
    requires Unique(recs)
    ensures name in Names(recs) <==> exists i :: 0 <= i < |recs| && recs[i].inode != 0 && recs[i].name == name
    ensures forall i :: 0 <= i < |recs| && recs[i].inode != 0 && recs[i].name == name ==>
      Names(recs)[name] == recs[i].inode
    decreases |recs|
  {
    if recs != [] {
      var n := |recs| - 1;
      NamesAt(recs[..n], name);
      if name in Names(recs[..n]) {
        var i :| 0 <= i < n && recs[..n][i].inode != 0 && recs[..n][i].name == name;
        assert recs[i] == recs[..n][i];
      }
      forall i | 0 <= i < |recs| && recs[i].inode != 0 && recs[i].name == name
        ensures name in Names(recs) && Names(recs)[name] == recs[i].inode
      {
        if i < n {
          assert recs[..n][i] == recs[i];
        }
      }
    }
  }

  lemma {:induction false} SumSplit(recs: seq<Rec>, i: nat)
    requires i <= |recs|
    ensures Sum(recs) == Sum(recs[..i]) + Sum(recs[i..])
  {
    if i > 0 {
      SumSplit(recs[1..], i - 1);
      assert recs[..i][1..] == recs[1..][..i - 1] && recs[1..][i - 1..] == recs[i..];
    } else {
      assert recs[..0] == [] && recs[0..] == recs;
    }
  }

  lemma {:induction false} SumAppend(a: seq<Rec>, b: seq<Rec>)
    ensures Sum(a + b) == Sum(a) + Sum(b)
  {
    if a == [] {
      assert a + b == b;
    } else {
      SumAppend(a[1..], b);
      assert (a + b)[1..] == a[1..] + b;
    }
  }

  /** Replacing record `i` by others of the same total length keeps the tiling. */
  lemma SumReplace(recs: seq<Rec>, i: nat, k: nat, with_: seq<Rec>)
    requires i + k <= |recs| && Sum(with_) == Sum(recs[i..i + k])
    ensures Sum(recs[..i] + with_ + recs[i + k..]) == Sum(recs)
  {
    hide Sum;
    var a, b, c := recs[..i], recs[i..i + k], recs[i + k..];
    assert recs == a + b + c;
    SumAppend(a + b, c);
    SumAppend(a, b);
    SumAppend(a + with_, c);
    SumAppend(a, with_);
  }

  lemma SumOne(r: Rec)
    ensures Sum([r]) == r.len
  {
    assert [r][1..] == [];
  }

  lemma SumTwo(r: Rec, t: Rec)
    ensures Sum([r, t]) == r.len + t.len
  {
    assert [r, t][1..] == [t];
    SumOne(t);
  }

  /** Two lists with the same live names say the same. */
  lemma SameNames(a: seq<Rec>, b: seq<Rec>, name: Name, inode: nat)
    requires Unique(a) && Unique(b)
    requires forall x: Name, v: nat :: Holds(b, x, v) <==>
      (x == name && v == inode && inode != 0) || (x != name && Holds(a, x, v))
    ensures Names(b) == if inode == 0 then Names(a) - {name} else Names(a)[name := inode]
  {
    var want := if inode == 0 then Names(a) - {name} else Names(a)[name := inode];
    forall x: Name ensures (x in Names(b) <==> x in want) && (x in want ==> Names(b)[x] == want[x]) {
      HoldsIs(a, x);
      HoldsIs(b, x);
      if x in Names(b) {
        assert Holds(b, x, Names(b)[x]);
      }
      if x in want {
        assert x != name ==> Holds(a, x, Names(a)[x]);
        assert x == name ==> Holds(b, x, inode);
      }
    }
  }

  ghost predicate Holds(recs: seq<Rec>, name: Name, inode: nat) {
    inode != 0 && exists i :: 0 <= i < |recs| && recs[i].inode == inode && recs[i].name == name
  }

  lemma HoldsIs(recs: seq<Rec>, name: Name)
    requires Unique(recs)
    ensures forall v: nat :: Holds(recs, name, v) <==> name in Names(recs) && Names(recs)[name] == v
  {
    NamesAt(recs, name);
    forall v: nat ensures Holds(recs, name, v) <==> name in Names(recs) && Names(recs)[name] == v {
      if name in Names(recs) && Names(recs)[name] == v {
        var i :| 0 <= i < |recs| && recs[i].inode != 0 && recs[i].name == name;
        assert recs[i].inode == v;
      }
    }
  }

  /** Whether record `r` can take a new name: as a whole, or behind its own name. */
  predicate HasRoom(r: Rec, need: nat) {
    || (r.inode == 0 && !r.tail && r.len >= need)
    || (r.inode != 0 && r.len - Need(r.name) >= need)
  }

  /** What the records become when record `i` takes the new name. */
  function Inserted(recs: seq<Rec>, i: nat, name: Name, inode: nat): seq<Rec>
    requires i < |recs|
  {
    var r := recs[i];
    if r.inode == 0 then recs[..i] + [Rec(inode, r.len, name, false)] + recs[i + 1..]
    else if r.len < Need(r.name) then recs
    else recs[..i] + [r.(len := Need(r.name)), Rec(inode, r.len - Need(r.name), name, false)] + recs[i + 1..]
  }

  lemma InsertHolds(recs: seq<Rec>, i: nat, name: Name, inode: nat, x: Name, v: nat)
    requires i < |recs| && HasRoom(recs[i], Need(name)) && inode != 0
    requires forall k :: 0 <= k < |recs| && recs[k].inode != 0 ==> recs[k].name != name
    ensures Holds(Inserted(recs, i, name, inode), x, v) <==>
      (x == name && v == inode) || (x != name && Holds(recs, x, v))
  {
    var r := Inserted(recs, i, name, inode);
    var d := if recs[i].inode == 0 then 0 else 1;
    assert r[i + d] == Rec(inode, r[i + d].len, name, false);
    if Holds(r, x, v) {
      var k :| 0 <= k < |r| && r[k].inode == v && r[k].name == x;
      if k < i {
        assert recs[k] == r[k];
      } else if k > i + d {
        assert recs[k - d] == r[k];
      } else if k == i && d == 1 {
        assert recs[i].inode == v && recs[i].name == x;
      }
    }
    if v != 0 && x != name && Holds(recs, x, v) {
      var k :| 0 <= k < |recs| && recs[k].inode == v && recs[k].name == x;
      if k <= i {
        assert r[k].inode == v && r[k].name == x;
      } else {
        assert r[k + d] == recs[k];
      }
    }
  }

  lemma InsertUnique(recs: seq<Rec>, i: nat, name: Name, inode: nat)
    requires i < |recs| && HasRoom(recs[i], Need(name)) && inode != 0 && Unique(recs)
    requires forall k :: 0 <= k < |recs| && recs[k].inode != 0 ==> recs[k].name != name
    ensures Unique(Inserted(recs, i, name, inode))
  {
    var r := Inserted(recs, i, name, inode);
    var d := if recs[i].inode == 0 then 0 else 1;
    forall k | 0 <= k < |r| && r[k].inode != 0
      ensures if k == i + d then r[k].name == name
              else (var o := if k < i + d then k else k - d;
                  0 <= o < |recs| && recs[o].inode != 0 && recs[o].name == r[k].name)
    {
    }
  }

  lemma InsertKeeps(size: nat, recs: seq<Rec>, i: nat, name: Name, inode: nat)
    requires WellFormed(size, recs) && i < |recs| && HasRoom(recs[i], Need(name)) && inode != 0 && |name| > 0
    requires name !in Names(recs)
    ensures WellFormed(size, Inserted(recs, i, name, inode))
    ensures Names(Inserted(recs, i, name, inode)) == Names(recs)[name := inode]
    ensures |recs| > 0 && recs[|recs| - 1].tail ==>
      var r := Inserted(recs, i, name, inode); |r| > 0 && r[|r| - 1] == recs[|recs| - 1]
  {
    hide Sum, Unique, RecOk, Holds, Names, Need, HasRoom;
    Absent(size, recs, name);
    var r := Inserted(recs, i, name, inode);
    InsertSum(recs, i, name, inode);
    InsertUnique(recs, i, name, inode);
    forall y: Name, v: nat
      ensures Holds(r, y, v) <==> (y == name && v == inode && inode != 0) || (y != name && Holds(recs, y, v))
    {
      InsertHolds(recs, i, name, inode, y, v);
    }
    SameNames(recs, r, name, inode);
    InsertRecs(recs, i, name, inode);
    InsertTail(recs, i, name, inode);
  }

  lemma Absent(size: nat, recs: seq<Rec>, name: Name)
    requires WellFormed(size, recs)
    ensures name !in Names(recs) <==> forall k :: 0 <= k < |recs| && recs[k].inode != 0 ==> recs[k].name != name
  {
    NamesAt(recs, name);
  }

  lemma InsertTail(recs: seq<Rec>, i: nat, name: Name, inode: nat)
    requires i < |recs| && HasRoom(recs[i], Need(name)) && (forall k :: 0 <= k < |recs| ==> RecOk(recs[k]))
    ensures recs[|recs| - 1].tail ==>
      var r := Inserted(recs, i, name, inode); |r| > 0 && r[|r| - 1] == recs[|recs| - 1]
  {
    assert RecOk(recs[i]);
  }

  lemma InsertSum(recs: seq<Rec>, i: nat, name: Name, inode: nat)
    requires i < |recs| && HasRoom(recs[i], Need(name))
    ensures Sum(Inserted(recs, i, name, inode)) == Sum(recs)
  {
    hide Sum;
    var x := recs[i];
    assert recs[i..i + 1] == [x];
    SumOne(x);
    if x.inode == 0 {
      SumOne(Rec(inode, x.len, name, false));
      SumReplace(recs, i, 1, [Rec(inode, x.len, name, false)]);
    } else {
      SumTwo(x.(len := Need(x.name)), Rec(inode, x.len - Need(x.name), name, false));
      SumReplace(recs, i, 1, [x.(len := Need(x.name)), Rec(inode, x.len - Need(x.name), name, false)]);
    }
  }

  lemma InsertRecs(recs: seq<Rec>, i: nat, name: Name, inode: nat)
    requires (forall k :: 0 <= k < |recs| ==> RecOk(recs[k])) && i < |recs| && HasRoom(recs[i], Need(name)) &&
      |name| > 0
    ensures forall k :: 0 <= k < |Inserted(recs, i, name, inode)| ==> RecOk(Inserted(recs, i, name, inode)[k])
  {
    var r := Inserted(recs, i, name, inode);
    var d := if recs[i].inode == 0 then 0 else 1;
    NewRecs(recs[i], name, inode);
    hide RecOk, HasRoom, Need;
    forall k | 0 <= k < |r| ensures RecOk(r[k]) {
      if k < i {
        assert r[k] == recs[k];
      } else if k > i + d {
        assert r[k] == recs[k - d];
      }
    }
  }

  lemma NewRecs(x: Rec, name: Name, inode: nat)
    requires RecOk(x) && HasRoom(x, Need(name)) && |name| > 0
    ensures x.inode == 0 ==> RecOk(Rec(inode, x.len, name, false))
    ensures x.inode != 0 ==>
      Need(x.name) <= x.len && RecOk(x.(len := Need(x.name))) && RecOk(Rec(inode, x.len - Need(x.name), name, false))
  {
  }

  // ----- removing -----

  /**
   * What the records become when record `i` is removed: the first one is emptied, another one joins its
   * predecessor.
   */
  function Removed(recs: seq<Rec>, i: nat): seq<Rec>
    requires i < |recs|
  {
    if i == 0 then recs[0 := recs[0].(inode := 0)] else Joined(recs, i - 1)
  }

  /** Record `j` takes over the space of the next one. */
  function Joined(recs: seq<Rec>, j: nat): seq<Rec>
    requires j + 1 < |recs|
  {
    recs[..j] + [recs[j].(len := recs[j].len + recs[j + 1].len)] + recs[j + 2..]
  }

  lemma RemoveSum(recs: seq<Rec>, i: nat)
    requires i < |recs|
    ensures Sum(Removed(recs, i)) == Sum(recs)
  {
    hide Sum, Joined;
    if i == 0 {
      EmptySum(recs);
    } else {
      JoinSum(recs, i - 1);
    }
  }

  lemma JoinSum(recs: seq<Rec>, j: nat)
    requires j + 1 < |recs|
    ensures Sum(Joined(recs, j)) == Sum(recs)
  {
    hide Sum;
    var p, x := recs[j], recs[j + 1];
    var joined := p.(len := p.len + x.len);
    SumOne(joined);
    SumTwo(p, x);
    Pair(recs, j);
    SumReplace(recs, j, 2, [joined]);
  }

  lemma Pair(recs: seq<Rec>, j: nat)
    requires j + 1 < |recs|
    ensures recs[j..j + 2] == [recs[j], recs[j + 1]]
  {
  }

  lemma EmptySum(recs: seq<Rec>)
    requires recs != []
    ensures Sum(recs[0 := recs[0].(inode := 0)]) == Sum(recs)
  {
    var r := recs[0 := recs[0].(inode := 0)];
    assert r[1..] == recs[1..];
  }

  lemma RemoveHolds(recs: seq<Rec>, i: nat, x: Name, v: nat)
    requires Unique(recs) && i < |recs| && recs[i].inode != 0
    ensures Holds(Removed(recs, i), x, v) <==> x != recs[i].name && Holds(recs, x, v)
  {
    hide Holds, Removed, Unique;
    if Holds(Removed(recs, i), x, v) {
      HoldsAfter(recs, i, x, v);
    }
    if x != recs[i].name && Holds(recs, x, v) {
      HoldsBefore(recs, i, x, v);
    }
  }

  lemma HoldsAfter(recs: seq<Rec>, i: nat, x: Name, v: nat)
    requires Unique(recs) && i < |recs| && recs[i].inode != 0 && Holds(Removed(recs, i), x, v)
    ensures x != recs[i].name && Holds(recs, x, v)
  {
    var r := Removed(recs, i);
    var k :| 0 <= k < |r| && r[k].inode == v && r[k].name == x;
    var o := if i == 0 || k < i then k else k + 1;
    assert recs[o].inode == v && recs[o].name == x && o != i;
  }

  lemma HoldsBefore(recs: seq<Rec>, i: nat, x: Name, v: nat)
    requires i < |recs| && recs[i].inode != 0 && x != recs[i].name && Holds(recs, x, v)
    ensures Holds(Removed(recs, i), x, v)
  {
    var r := Removed(recs, i);
    var k :| 0 <= k < |recs| && recs[k].inode == v && recs[k].name == x;
    var o := if i == 0 || k < i then k else k - 1;
    assert r[o].inode == v && r[o].name == x;
  }

  lemma RemoveParts(recs: seq<Rec>, i: nat)
    requires Unique(recs) && i < |recs| && recs[i].inode != 0 && (forall k :: 0 <= k < |recs| ==> RecOk(recs[k]))
    ensures Unique(Removed(recs, i)) && (forall k :: 0 <= k < |Removed(recs, i)| ==> RecOk(Removed(recs, i)[k]))
    ensures recs[|recs| - 1].tail ==>
      var r := Removed(recs, i); |r| > 0 && (i < |recs| - 1 ==> r[|r| - 1] == recs[|recs| - 1])
  {
    var r := Removed(recs, i);
    forall k | 0 <= k < |r|
      ensures var o := if i == 0 || k < i then k else k + 1;
        && 0 <= o < |recs| && r[k].name == recs[o].name && (r[k].inode == recs[o].inode || r[k].inode == 0)
        && RecOk(r[k])
    {
      var o := if i == 0 || k < i then k else k + 1;
      assert RecOk(recs[o]);
      assert RecOk(recs[i]);
      assert k + 1 == i ==> (recs[i - 1].len + recs[i].len) % 4 == 0;
    }
  }

  lemma RemoveKeeps(size: nat, recs: seq<Rec>, i: nat)
    requires WellFormed(size, recs) && i < |recs| && recs[i].inode != 0
    ensures WellFormed(size, Removed(recs, i)) && Names(Removed(recs, i)) == Names(recs) - {recs[i].name}
  {
    hide Sum, RecOk, Holds, Names;
    RemoveSum(recs, i);
    RemoveParts(recs, i);
    var r := Removed(recs, i);
    hide Unique, Removed;
    forall y: Name, v: nat
      ensures Holds(r, y, v) <==> (y == recs[i].name && v == 0 && 0 != 0) || (y != recs[i].name && Holds(recs, y, v))
    {
      RemoveHolds(recs, i, y, v);
    }
    SameNames(recs, r, recs[i].name, 0);
  }

  // ----- walking through the block -----

  lemma WalkStep(recs: seq<Rec>, i: nat)
    requires i < |recs|
    ensures Sum(recs[..i + 1]) == Sum(recs[..i]) + recs[i].len
    ensures Sum(recs) == Sum(recs[..i]) + Sum(recs[i..]) && recs[i].len <= Sum(recs[i..])
  {
    assert recs[..i + 1] == recs[..i] + [recs[i]];
    SumAppend(recs[..i], [recs[i]]);
    SumOne(recs[i]);
    SumSplit(recs, i);
  }

  lemma {:induction false} LenInSum(recs: seq<Rec>, i: nat)
    requires i < |recs|
    ensures recs[i].len <= Sum(recs)
  {
    if i > 0 {
      LenInSum(recs[1..], i - 1);
    }
  }

  /** No record from index `i` on can hold a name that would reach over the end of the block. */
  lemma TooShort(size: nat, recs: seq<Rec>, i: nat, name: Name)
    requires WellFormed(size, recs) && i <= |recs| && Sum(recs[..i]) + |name| > size
    ensures forall k :: i <= k < |recs| && recs[k].inode != 0 ==> recs[k].name != name
  {
    SumSplit(recs, i);
    forall k | i <= k < |recs| && recs[k].inode != 0 ensures recs[k].name != name {
      LenInSum(recs[i..], k - i);
      assert RecOk(recs[k]);
    }
  }

  class Block {
    const size: nat
    var recs: seq<Rec>

    ghost predicate Valid()
      reads this
    {
      WellFormed(size, recs)
    }

    constructor (size: nat, recs: seq<Rec>)
      requires WellFormed(size, recs)
      ensures Valid() && this.size == size && this.recs == recs
    {
      this.size, this.recs := size, recs;
    }

    /** Look for a name; `at` is the index of its record and `pos` its place in bytes. */
    method Find(name: Name) returns (err: Err, at: nat, pos: nat)
      requires Valid()
      ensures err == if name in Names(recs) then EOK else ENOENT
      ensures err == EOK ==>
        && at < |recs| && recs[at].inode != 0 && recs[at].name == name && pos == Sum(recs[..at])
        && Names(recs)[name] == recs[at].inode
    {
      hide Names, Unique, Sum;
      NamesOf(recs, name);
      at, pos := 0, 0;
      NoRecs(recs);
      while pos < size
        invariant at <= |recs| && pos == Sum(recs[..at]) <= size
        invariant forall k :: 0 <= k < at && recs[k].inode != 0 ==> recs[k].name != name
        decreases |recs| - at
      {
        if pos + |name| > size {
          TooShort(size, recs, at, name);
          return ENOENT, 0, 0;
        }
        NotAtEnd(recs, at);
        WalkStep(recs, at);
        assert RecOk(recs[at]);
        if recs[at].inode != 0 && |recs[at].name| == |name| && recs[at].name == name {
          return EOK, at, pos;
        }
        pos := pos + recs[at].len;
        at := at + 1;
      }
      AtEnd(size, recs, at);
      return ENOENT, 0, 0;
    }

    /** Put a new name into the first record that has room for it. */
    method TryInsert(name: Name, inode: nat) returns (err: Err)
      requires Valid() && inode != 0 && |name| > 0 && name !in Names(recs)
      modifies this`recs
      ensures Valid() && (err == EOK || err == ENOSPC)
      ensures err == EOK ==> Names(recs) == old(Names(recs))[name := inode]
      ensures err == ENOSPC ==> recs == old(recs)
      ensures err == ENOSPC <==> forall k :: 0 <= k < |old(recs)| ==> !HasRoom(old(recs)[k], Need(name))
      ensures old(recs) != [] && old(recs)[|old(recs)| - 1].tail ==>
        recs != [] && recs[|recs| - 1] == old(recs)[|old(recs)| - 1]
    {
      hide Names, Unique, Sum, WellFormed;
      var need := Need(name);
      var at, pos := 0, 0;
      NoRecs(recs);
      while pos < size
        invariant at <= |recs| && pos == Sum(recs[..at]) && recs == old(recs) && Valid()
        invariant forall k :: 0 <= k < at ==> !HasRoom(recs[k], need)
        decreases |recs| - at
      {
        WalkFacts(size, recs, at);
        var r := recs[at];
        if r.inode == 0 && !r.tail && r.len >= need {
          InsertKeeps(size, recs, at, name, inode);
          recs := recs[..at] + [Rec(inode, r.len, name, false)] + recs[at + 1..];
          return EOK;
        }
        if r.inode != 0 {
          var sz := Need(r.name);
          var free := r.len - sz;
          if free >= need {
            InsertKeeps(size, recs, at, name, inode);
            recs := recs[..at] + [r.(len := sz), Rec(inode, free, name, false)] + recs[at + 1..];
            return EOK;
          }
        }
        WalkStep(recs, at);
        pos := pos + r.len;
        at := at + 1;
      }
      WalkEnd(size, recs, at);
      return ENOSPC;
    }

    /** Remove a name; its record joins the one before it. */
    method Remove(name: Name) returns (err: Err)
      requires Valid()
      modifies this`recs
      ensures Valid()
      ensures err == if name in old(Names(recs)) then EOK else ENOENT
      ensures Names(recs) == old(Names(recs)) - {name}
      ensures old(recs) != [] && old(recs)[|old(recs)| - 1].tail ==>
        recs != [] && recs[|recs| - 1] == old(recs)[|old(recs)| - 1]
    {
      hide Names, Unique, Sum, WellFormed;
      var at, pos;
      err, at, pos := Find(name);
      if err != EOK {
        assert Names(recs) - {name} == Names(recs);
        return;
      }
      RemoveKeeps(size, recs, at);
      TailStays(size, recs, at);
      PosZero(size, recs, at);
      if pos == 0 {
        recs := recs[0 := recs[0].(inode := 0)];
      } else {
        var offset, pre := 0, 0;
        NoRecs(recs);
        WalkStep(recs, 0);
        while offset + recs[pre].len < pos
          invariant recs == old(recs) && Valid() && pre < at && offset == Sum(recs[..pre])
          decreases at - pre
        {
          Before(recs, pre, at);
          offset := offset + recs[pre].len;
          pre := pre + 1;
        }
        Before(recs, pre, at);
        Predecessor(size, recs, pre, at);
        assert offset + recs[pre].len == pos;
        recs := recs[..pre] + [recs[pre].(len := recs[pre].len + recs[at].len)] + recs[at + 1..];
      }
    }
  }

  lemma NamesOf(recs: seq<Rec>, name: Name)
    requires Unique(recs)
    ensures name in Names(recs) <==> exists i :: 0 <= i < |recs| && recs[i].inode != 0 && recs[i].name == name
    ensures forall i :: 0 <= i < |recs| && recs[i].inode != 0 && recs[i].name == name ==>
      Names(recs)[name] == recs[i].inode
  {
    NamesAt(recs, name);
  }

  lemma NoRecs(recs: seq<Rec>)
    ensures Sum(recs[..0]) == 0
  {
  }

  lemma NotAtEnd(recs: seq<Rec>, at: nat)
    requires at <= |recs| && Sum(recs[..at]) < Sum(recs)
    ensures at < |recs|
  {
    assert recs[..|recs|] == recs;
  }

  /** When the walk has reached the end of the block, it has seen every record. */
  lemma AtEnd(size: nat, recs: seq<Rec>, at: nat)
    requires WellFormed(size, recs) && at <= |recs| && Sum(recs[..at]) >= size
    ensures at == |recs|
  {
    SumSplit(recs, at);
    if at < |recs| {
      PositiveRest(size, recs, at);
    }
  }

  lemma PositiveRest(size: nat, recs: seq<Rec>, at: nat)
    requires WellFormed(size, recs) && at < |recs|
    ensures Sum(recs[at..]) > 0
  {
    LenInSum(recs[at..], 0);
    assert RecOk(recs[at]);
  }

  lemma WalkFacts(size: nat, recs: seq<Rec>, at: nat)
    requires WellFormed(size, recs) && at <= |recs| && Sum(recs[..at]) < size
    ensures at < |recs| && (recs[at].inode != 0 ==> Need(recs[at].name) <= recs[at].len)
  {
    NotAtEnd(recs, at);
    assert RecOk(recs[at]);
  }

  lemma WalkEnd(size: nat, recs: seq<Rec>, at: nat)
    requires WellFormed(size, recs) && at <= |recs| && Sum(recs[..at]) >= size
    ensures at == |recs|
  {
    AtEnd(size, recs, at);
  }

  lemma TailStays(size: nat, recs: seq<Rec>, at: nat)
    requires WellFormed(size, recs) && at < |recs| && recs[at].inode != 0
    ensures recs[|recs| - 1].tail ==> var r := Removed(recs, at); |r| > 0 && r[|r| - 1] == recs[|recs| - 1]
  {
    RemoveParts(recs, at);
    assert RecOk(recs[at]);
  }

  lemma PosZero(size: nat, recs: seq<Rec>, at: nat)
    requires WellFormed(size, recs) && at < |recs|
    ensures Sum(recs[..at]) == 0 <==> at == 0
  {
    if at > 0 {
      WalkStep(recs, 0);
      Before(recs, 0, at);
      assert RecOk(recs[0]);
    }
  }

  /** Records before `at` end at or before its place. */
  lemma Before(recs: seq<Rec>, i: nat, at: nat)
    requires i < at < |recs|
    ensures Sum(recs[..i]) + recs[i].len == Sum(recs[..i + 1]) <= Sum(recs[..at])
    ensures i + 1 < at ==> i + 1 < |recs|
  {
    WalkStep(recs, i);
    SumSplit(recs[..at], i + 1);
    assert recs[..at][..i + 1] == recs[..i + 1];
  }

  lemma Predecessor(size: nat, recs: seq<Rec>, pre: nat, at: nat)
    requires WellFormed(size, recs) && pre < at < |recs| && Sum(recs[..pre]) + recs[pre].len >= Sum(recs[..at])
    ensures pre + 1 == at
  {
    WalkStep(recs, pre);
    if pre + 1 < at {
      Longer(size, recs, pre + 1, at);
    }
  }

  lemma Longer(size: nat, recs: seq<Rec>, i: nat, at: nat)
    requires WellFormed(size, recs) && i < at < |recs|
    ensures Sum(recs[..i]) < Sum(recs[..at])
  {
    Before(recs, i, at);
    assert RecOk(recs[i]);
  }
}
