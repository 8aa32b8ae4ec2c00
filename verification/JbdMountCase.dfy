/** A journal with one logged superblock, for which an interrupted recovery ends with another superblock. */
module JbdMountCase {
  import opened JbdFormat
  import opened JbdLog
  import opened JbdRecover
  import opened JbdText
  import opened JbdHistory
  import opened JbdRing
  import opened JbdState
  import opened JbdWrite
  import opened JbdJournal
  import opened JbdSession
  import opened JbdCrash
  import opened JbdMount

  /** The only copy in the log is one of the superblock. */
  lemma OneSuper(log: Log, x: Buf)
    requires LogOk(log) && Fits(log, 0, 0) && Says(log, Committed(log), 0, [ContentOf(x)]) && x.lba == 0
    requires log.g.words == |x.data| >= 512
    ensures CopiesOk(log) && |Copies(Committed(log))| == 1 && LastSuper(Committed(log), Copies(Committed(log)), 1) == 0
    ensures Part(BlockAt(log, Copies(Committed(log))[0].at)) == Part(x.data)
  {
    var recs, run := Committed(log), [ContentOf(x)];
    var cs := Copies(recs);
    CopiesAreOk(log);
    OneContent(ContentOf(x), 0);
    assert |cs| == 1 && cs[0].block == 0 && Unescape(BlockAt(log, cs[0].at), cs[0].escape) == x.data;
    CancelledMeans(log, recs, run, cs[0]);
    assert !RevokedLater(run, 0, 0);
    assert |BlockAt(log, cs[0].at)| == log.g.words;
  }

  /** One committed superblock, with another mount count than the one on disk. */
  lemma StopBehindSuper(j: State, x: Buf, s: Store)
    requires Ok(j) && j.clean && j.cur == 0 && |j.queue| == 1 && j.queue[0].content == ContentOf(x) && x.lba == 0
    requires j.g.words == |x.data| >= 512 && |s.super| == 256 && MountCount(Part(x.data)) != MountCount(s.super)
    ensures CopiesOk(LogOf(j)) && |Copies(Committed(LogOf(j)))| == 1
    ensures FinalSuper(LogOf(j), Again(LogOf(j), s, 1)) != FinalSuper(LogOf(j), Mounted(s))
  {
    hide Ok, Says, Fits, Committed, Copies, Half, FinalSuper, Again, Mounted, MountCount;
    HalfIdle(j);
    JournalReads(j, [], 0, [], 0);
    assert Contents(j.queue) == [ContentOf(x)];
    OneSuper(LogOf(j), x);
    RerunSuper(LogOf(j), s, 1);
  }

  /** Such a journal: after a stop behind its only copy, the superblock ends up with another mount count. */
  method SuperblockDiffers() returns (j: Journal, ghost s: Store)
    ensures CopiesOk(Found(j)) && |s.super| == 256 && |Copies(Committed(Found(j)))| == 1
    ensures FinalSuper(Found(j), Again(Found(j), s, 1)) != FinalSuper(Found(j), Mounted(s))
  {
    hide Ok, CopiesOk, Committed, Copies, FinalSuper, Again, Mounted, Untouched;
    var g, blank := Geometry(512, 1, 6, false), seq(512, i => 0);
    j := new Journal(g, [0, 0, 0, 0], seq(6, i => blank), 0);
    var x := Buf(0, true, blank);
    CommitOne(j, x);
    s := Store(map[], seq(256, i => if i == 13 then HALF else 0), []);
    StopBehindSuper(j.Now(), x, s);
  }
}
