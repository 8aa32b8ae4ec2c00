/**
 * The xv6 redo log on disk: a header block with the numbers of the logged blocks, followed by
 * their contents.  What every disk state that commit or recovery passes through means for
 * the next recovery.
 */
module Xv6Disk {
  import opened Lists

  const LOGSIZE: nat := 30
  const MAXOPBLOCKS: nat := 10

  type Block = seq<int>
  type Disk = map<nat, Block>

  /** Where the log lies, how many blocks it has (header included) and how many words a block has. */
  datatype Layout = Layout(start: nat, size: nat, words: nat)

  predicate InLog(l: Layout, a: nat) {
    l.start <= a < l.start + l.size
  }

  ghost predicate DiskOk(l: Layout, d: Disk) {
    && l.words > LOGSIZE + 1 && l.size > 0
    && forall a :: InLog(l, a) ==> a in d && |d[a]| == l.words
  }

  /** The block numbers in a header block. */
  function Listed(b: Block): seq<int> {
    if b != [] && 0 <= b[0] < |b| then b[1..1 + b[0]] else []
  }

  /** Block numbers that can be logged together. */
  ghost predicate Loggable(l: Layout, blocks: seq<nat>) {
    |blocks| <= LOGSIZE && |blocks| < l.size && Distinct(blocks) && forall i :: 0 <= i < |blocks| ==>
        !InLog(l, blocks[i])
  }

  /** The header names `blocks`. */
  ghost predicate HeadIs(l: Layout, d: Disk, blocks: seq<nat>) {
    DiskOk(l, d) && Loggable(l, blocks) && d[l.start][0] == |blocks| && Listed(d[l.start]) == blocks
  }

  /** The header block with its count and first numbers replaced. */
  function WithHead(b: Block, blocks: seq<nat>): Block {
    if |blocks| < |b| then [|blocks|] + blocks + b[1 + |blocks|..] else b
  }

  /** Home blocks. */
  ghost function Home(l: Layout, d: Disk): Disk {
    map a | a in d && !InLog(l, a) :: d[a]
  }

  /** The first `n` logged blocks copied to their home places. */
  function Installed(l: Layout, d: Disk, blocks: seq<nat>, n: nat): Disk
    requires n <= |blocks|
  {
    if n == 0 then d
    else
      var d' := Installed(l, d, blocks, n - 1);
      if l.start + n in d' then d'[blocks[n - 1] := d'[l.start + n]] else d'
  }

  /** What recovery would make of the home blocks. */
  ghost function Outcome(l: Layout, d: Disk, blocks: seq<nat>): Disk {
    Home(l, Installed(l, d, blocks, |blocks|))
  }

  lemma {:induction false} InstalledAt(l: Layout, d: Disk, blocks: seq<nat>, n: nat, a: nat)
    requires DiskOk(l, d) && Loggable(l, blocks) && n <= |blocks|
    ensures DiskOk(l, Installed(l, d, blocks, n))
    ensures var d' := Installed(l, d, blocks, n);
      && (InLog(l, a) ==> d'[a] == d[a])
      && (forall i :: 0 <= i < n && blocks[i] == a ==> a in d' && d'[a] == d[l.start + 1 + i])
      && ((forall i :: 0 <= i < n ==> blocks[i] != a) ==> (a in d' <==> a in d) && (a in d ==> d'[a] == d[a]))
  {
    if n > 0 {
      InstalledAt(l, d, blocks, n - 1, a);
      InstalledAt(l, d, blocks, n - 1, l.start + n);
      var d1 := Installed(l, d, blocks, n - 1);
      var d' := Installed(l, d, blocks, n);
      assert InLog(l, l.start + n);
      forall x | InLog(l, x) ensures x in d' && |d'[x]| == l.words {
        assert x in d1 && |d1[x]| == l.words && x != blocks[n - 1];
      }
    }
  }

  /** Copying again what was partly copied before makes no difference. */
  lemma InstallAgain(l: Layout, d: Disk, blocks: seq<nat>, n: nat)
    requires DiskOk(l, d) && Loggable(l, blocks) && n <= |blocks|
    ensures Installed(l, Installed(l, d, blocks, n), blocks, |blocks|) == Installed(l, d, blocks, |blocks|)
  {
    var d1 := Installed(l, d, blocks, n);
    InstalledAt(l, d, blocks, n, 0);
    var a1, a2 := Installed(l, d1, blocks, |blocks|), Installed(l, d, blocks, |blocks|);
    forall a ensures (a in a1 <==> a in a2) && (a in a1 ==> a1[a] == a2[a]) {
      InstalledAt(l, d, blocks, |blocks|, a);
      InstalledAt(l, d, blocks, n, a);
      InstalledAt(l, d1, blocks, |blocks|, a);
      if i :| 0 <= i < |blocks| && blocks[i] == a {
        InstalledAt(l, d, blocks, n, l.start + 1 + i);
      }
    }
  }

  // ----- recovery -----

  function Cleared(l: Layout, d: Disk): Disk {
    if l.start in d then d[l.start := WithHead(d[l.start], [])] else d
  }

  /** The disk before and after each of the first `n` copies to home places. */
  function InstallStates(l: Layout, d: Disk, blocks: seq<nat>, n: nat): seq<Disk>
    requires n <= |blocks|
  {
    if n == 0 then [d] else InstallStates(l, d, blocks, n - 1) + [Installed(l, d, blocks, n)]
  }

  /** The disk before and after each block that recovery writes. */
  function RecoverTrace(l: Layout, d: Disk, blocks: seq<nat>): seq<Disk> {
    InstallStates(l, d, blocks, |blocks|) + [Cleared(l, Installed(l, d, blocks, |blocks|))]
  }

  lemma {:induction false} InstallStateAt(l: Layout, d: Disk, blocks: seq<nat>, n: nat, i: nat)
    requires i <= n <= |blocks|
    ensures |InstallStates(l, d, blocks, n)| == n + 1 && InstallStates(l, d, blocks, n)[i] == Installed(l, d, blocks, i)
  {
    if n > 0 {
      InstallStateAt(l, d, blocks, n - 1, if i < n then i else 0);
    }
  }

  lemma HeadKept(l: Layout, d: Disk, blocks: seq<nat>, n: nat)
    requires HeadIs(l, d, blocks) && n <= |blocks|
    ensures HeadIs(l, Installed(l, d, blocks, n), blocks)
    ensures Outcome(l, Installed(l, d, blocks, n), blocks) == Outcome(l, d, blocks)
  {
    InstalledAt(l, d, blocks, n, l.start);
    InstallAgain(l, d, blocks, n);
  }

  lemma ClearedIs(l: Layout, d: Disk)
    requires DiskOk(l, d)
    ensures HeadIs(l, Cleared(l, d), []) && Home(l, Cleared(l, d)) == Home(l, d)
    ensures Outcome(l, Cleared(l, d), []) == Home(l, d)
  {
    var d' := Cleared(l, d);
    assert InLog(l, l.start);
    forall a: nat | InLog(l, a) ensures a in d' && |d'[a]| == l.words {
    }
    assert Home(l, d') == Home(l, d);
    assert Listed(d'[l.start]) == [];
    assert Loggable(l, []);
  }

  /** The numbers the header of a recovery state names: all of them, or none once it is cleared. */
  ghost predicate Means(l: Layout, d: Disk, home: Disk) {
    exists blocks :: HeadIs(l, d, blocks) && Outcome(l, d, blocks) == home
  }

  /** A header names one list only. */
  lemma MeansOne(l: Layout, d: Disk, blocks: seq<nat>, home: Disk)
    requires HeadIs(l, d, blocks)
    ensures Means(l, d, home) <==> home == Outcome(l, d, blocks)
  {
  }

  /** Every disk state of a recovery, when recovered again, gives the same home blocks. */
  lemma RecoverStates(l: Layout, d: Disk, blocks: seq<nat>, i: nat)
    requires HeadIs(l, d, blocks) && i < |RecoverTrace(l, d, blocks)|
    ensures Means(l, RecoverTrace(l, d, blocks)[i], Outcome(l, d, blocks))
    ensures i == |blocks| + 1 ==> Home(l, RecoverTrace(l, d, blocks)[i]) == Outcome(l, d, blocks)
  {
    InstallStateAt(l, d, blocks, |blocks|, if i <= |blocks| then i else 0);
    if i <= |blocks| {
      HeadKept(l, d, blocks, i);
      MeansOne(l, Installed(l, d, blocks, i), blocks, Outcome(l, d, blocks));
    } else {
      var e := Installed(l, d, blocks, |blocks|);
      HeadKept(l, d, blocks, |blocks|);
      ClearedIs(l, e);
      MeansOne(l, Cleared(l, e), [], Home(l, e));
    }
  }

  // ----- commit -----

  /** The first `n` blocks copied from the cache into the log. */
  function Logged(l: Layout, d: Disk, blocks: seq<nat>, cache: map<nat, Block>, n: nat): Disk
    requires n <= |blocks|
  {
    if n == 0 then d
    else
      var d' := Logged(l, d, blocks, cache, n - 1);
      if blocks[n - 1] in cache then d'[l.start + n := cache[blocks[n - 1]]] else d'
  }

  function Headed(l: Layout, d: Disk, blocks: seq<nat>): Disk {
    if l.start in d then d[l.start := WithHead(d[l.start], blocks)] else d
  }

  /** The disk before and after each of the first `n` copies into the log. */
  function LogStates(l: Layout, d: Disk, blocks: seq<nat>, cache: map<nat, Block>, n: nat): seq<Disk>
    requires n <= |blocks|
  {
    if n == 0 then [d] else LogStates(l, d, blocks, cache, n - 1) + [Logged(l, d, blocks, cache, n)]
  }

  lemma {:induction false} LogStateAt(l: Layout, d: Disk, blocks: seq<nat>, cache: map<nat, Block>, n: nat, i: nat)
    requires i <= n <= |blocks|
    ensures |LogStates(l, d, blocks, cache, n)| == n + 1 &&
      LogStates(l, d, blocks, cache, n)[i] == Logged(l, d, blocks, cache, i)
  {
    if n > 0 {
      LogStateAt(l, d, blocks, cache, n - 1, if i < n then i else 0);
    }
  }

  /** The disk before and after each block that commit writes. */
  function CommitTrace(l: Layout, d: Disk, blocks: seq<nat>, cache: map<nat, Block>): seq<Disk> {
    LogStates(l, d, blocks, cache, |blocks|)
      + RecoverTrace(l, Headed(l, Logged(l, d, blocks, cache, |blocks|), blocks), blocks)
  }

  ghost predicate Cached(l: Layout, blocks: seq<nat>, cache: map<nat, Block>) {
    forall i :: 0 <= i < |blocks| ==> blocks[i] in cache && |cache[blocks[i]]| == l.words
  }

  lemma {:induction false} LoggedAt(l: Layout, d: Disk, blocks: seq<nat>, cache: map<nat, Block>, n: nat, a: nat)
    requires DiskOk(l, d) && Loggable(l, blocks) && Cached(l, blocks, cache) && n <= |blocks|
    ensures DiskOk(l, Logged(l, d, blocks, cache, n))
    ensures var d' := Logged(l, d, blocks, cache, n);
      && (forall i :: 0 <= i < n && a == l.start + 1 + i ==> d'[a] == cache[blocks[i]])
      && (a <= l.start || a > l.start + n ==> (a in d' <==> a in d) && (a in d ==> d'[a] == d[a]))
  {
    if n > 0 {
      LoggedAt(l, d, blocks, cache, n - 1, a);
    }
  }

  lemma LoggedHome(l: Layout, d: Disk, blocks: seq<nat>, cache: map<nat, Block>, n: nat)
    requires DiskOk(l, d) && Loggable(l, blocks) && Cached(l, blocks, cache) && n <= |blocks|
    ensures Home(l, Logged(l, d, blocks, cache, n)) == Home(l, d)
  {
    var d' := Logged(l, d, blocks, cache, n);
    forall a | !InLog(l, a) ensures (a in d' <==> a in d) && (a in d ==> d'[a] == d[a]) {
      LoggedAt(l, d, blocks, cache, n, a);
    }
  }

  /** The home blocks with the transaction's contents. */
  ghost function Updated(home: Disk, blocks: seq<nat>, cache: map<nat, Block>): Disk
    requires forall i :: 0 <= i < |blocks| ==> blocks[i] in cache
  {
    home + map b | b in blocks :: cache[b]
  }

  lemma HeadedIs(l: Layout, d: Disk, blocks: seq<nat>)
    requires DiskOk(l, d) && Loggable(l, blocks)
    ensures HeadIs(l, Headed(l, d, blocks), blocks)
    ensures forall a :: a != l.start ==>
      (a in Headed(l, d, blocks) <==> a in d) && (a in d ==> Headed(l, d, blocks)[a] == d[a])
  {
    var d' := Headed(l, d, blocks);
    assert InLog(l, l.start);
    forall a: nat | InLog(l, a) ensures a in d' && |d'[a]| == l.words {
    }
    assert Listed(d'[l.start]) == blocks;
  }

  /** Once the header is written, recovery installs the whole transaction. */
  lemma CommitPoint(l: Layout, d: Disk, blocks: seq<nat>, cache: map<nat, Block>)
    requires DiskOk(l, d) && Loggable(l, blocks) && Cached(l, blocks, cache)
    ensures var e := Headed(l, Logged(l, d, blocks, cache, |blocks|), blocks);
      HeadIs(l, e, blocks) && Outcome(l, e, blocks) == Updated(Home(l, d), blocks, cache)
  {
    var d1 := Logged(l, d, blocks, cache, |blocks|);
    var e := Headed(l, d1, blocks);
    LoggedAt(l, d, blocks, cache, |blocks|, 0);
    HeadedIs(l, d1, blocks);
    var out, want := Outcome(l, e, blocks), Updated(Home(l, d), blocks, cache);
    forall a ensures (a in out <==> a in want) && (a in out ==> out[a] == want[a]) {
      OutcomeAt(l, d, blocks, cache, a);
    }
  }

  lemma OutcomeAt(l: Layout, d: Disk, blocks: seq<nat>, cache: map<nat, Block>, a: nat)
    requires DiskOk(l, d) && Loggable(l, blocks) && Cached(l, blocks, cache)
    ensures var out := Outcome(l, Headed(l, Logged(l, d, blocks, cache, |blocks|), blocks), blocks);
      var want := Updated(Home(l, d), blocks, cache);
      (a in out <==> a in want) && (a in out ==> out[a] == want[a])
  {
    hide Logged, Headed, Installed, Loggable, DiskOk;
    var d1 := Logged(l, d, blocks, cache, |blocks|);
    var e := Headed(l, d1, blocks);
    LoggedAt(l, d, blocks, cache, |blocks|, a);
    HeadedIs(l, d1, blocks);
    InstalledAt(l, e, blocks, |blocks|, a);
    LogSize(l, blocks);
    if i :| 0 <= i < |blocks| && blocks[i] == a {
      CopyAt(l, d, blocks, cache, i);
    }
  }

  lemma CopyAt(l: Layout, d: Disk, blocks: seq<nat>, cache: map<nat, Block>, i: nat)
    requires DiskOk(l, d) && Loggable(l, blocks) && Cached(l, blocks, cache) && i < |blocks|
    ensures var e := Headed(l, Logged(l, d, blocks, cache, |blocks|), blocks);
      l.start + 1 + i in e && e[l.start + 1 + i] == cache[blocks[i]]
  {
    var d1 := Logged(l, d, blocks, cache, |blocks|);
    LoggedAt(l, d, blocks, cache, |blocks|, l.start + 1 + i);
    HeadedIs(l, d1, blocks);
    assert InLog(l, l.start + 1 + i);
  }

  lemma LogSize(l: Layout, blocks: seq<nat>)
    requires Loggable(l, blocks)
    ensures |blocks| <= LOGSIZE && |blocks| < l.size && forall i :: 0 <= i < |blocks| ==> !InLog(l, blocks[i])
  {
  }

  /**
   * Crash atomicity of commit: each disk state it passes through recovers to the old home blocks,
   * up to the write of the header, and to the new ones from there on.
   */
  lemma CommitStates(l: Layout, d: Disk, blocks: seq<nat>, cache: map<nat, Block>, i: nat)
    requires HeadIs(l, d, []) && Loggable(l, blocks) && Cached(l, blocks, cache) &&
      i < |CommitTrace(l, d, blocks, cache)|
    ensures Means(l, CommitTrace(l, d, blocks, cache)[i],
                  if i <= |blocks| then Home(l, d) else Updated(Home(l, d), blocks, cache))
  {
    LogStateAt(l, d, blocks, cache, |blocks|, if i <= |blocks| then i else 0);
    if i <= |blocks| {
      var d' := Logged(l, d, blocks, cache, i);
      LoggedAt(l, d, blocks, cache, i, l.start);
      LoggedHome(l, d, blocks, cache, i);
      assert InLog(l, l.start);
      assert HeadIs(l, d', []);
      MeansOne(l, d', [], Home(l, d));
    } else {
      CommitPoint(l, d, blocks, cache);
      var e := Headed(l, Logged(l, d, blocks, cache, |blocks|), blocks);
      RecoverStates(l, e, blocks, i - |blocks| - 1);
    }
  }

  // ----- any number of crashes -----

  /** A recovery that starts from disk `d` may stop with disk `d'`. */
  ghost predicate StopsAt(l: Layout, d: Disk, d': Disk) {
    exists blocks :: HeadIs(l, d, blocks) && d' in RecoverTrace(l, d, blocks)
  }

  lemma StopsSame(l: Layout, d: Disk, d': Disk, home: Disk)
    requires StopsAt(l, d, d') && Means(l, d, home)
    ensures Means(l, d', home)
  {
    var blocks :| HeadIs(l, d, blocks) && d' in RecoverTrace(l, d, blocks);
    MeansOne(l, d, blocks, home);
    var i :| 0 <= i < |RecoverTrace(l, d, blocks)| && RecoverTrace(l, d, blocks)[i] == d';
    RecoverStates(l, d, blocks, i);
  }

  /** Disk states of a machine that stops again and again during recovery. */
  ghost predicate Crashes(l: Layout, ds: seq<Disk>) {
    forall i :: 0 < i < |ds| ==> StopsAt(l, ds[i - 1], ds[i])
  }

  lemma {:induction false} CrashChain(l: Layout, ds: seq<Disk>, home: Disk)
    requires Crashes(l, ds) && ds != [] && Means(l, ds[0], home)
    ensures Means(l, ds[|ds| - 1], home)
    decreases |ds|
  {
    hide StopsAt, Means;
    if |ds| > 1 {
      var rest := ds[..|ds| - 1];
      CrashChain(l, rest, home);
      StopsSame(l, ds[|ds| - 2], ds[|ds| - 1], home);
    }
  }

  /**
   * Commit is atomic: stop after any of its writes, restart and stop in recovery any number of
   * times; a recovery that completes leaves all home blocks old or all of them new.
   */
  lemma CommitAtomic(l: Layout, d: Disk, blocks: seq<nat>, cache: map<nat, Block>, i: nat, ds: seq<Disk>,
                     last: seq<nat>)
    requires HeadIs(l, d, []) && Loggable(l, blocks) && Cached(l, blocks, cache)
    requires i < |CommitTrace(l, d, blocks, cache)|
    requires ds != [] && ds[0] == CommitTrace(l, d, blocks, cache)[i] && Crashes(l, ds)
    requires HeadIs(l, ds[|ds| - 1], last)
    ensures var trace := RecoverTrace(l, ds[|ds| - 1], last);
      var done := trace[|trace| - 1];
      && HeadIs(l, done, [])
      && Home(l, done) == if i <= |blocks| then Home(l, d) else Updated(Home(l, d), blocks, cache)
  {
    var home := if i <= |blocks| then Home(l, d) else Updated(Home(l, d), blocks, cache);
    CommitStates(l, d, blocks, cache, i);
    CrashChain(l, ds, home);
    var e := ds[|ds| - 1];
    MeansOne(l, e, last, home);
    InstallStateAt(l, e, last, |last|, 0);
    RecoverStates(l, e, last, |last| + 1);
    HeadKept(l, e, last, |last|);
    ClearedIs(l, Installed(l, e, last, |last|));
  }
}
