/** Where the bounds on a sweep end: a count that is off, a reader that is overtaken, a writer that is too late. */
module SweepLimits {
  import opened Base
  import opened Namespace
  import TreeShape
  import opened Histories
  import opened Storage
  import opened Garbage
  import opened GarbageWrites
  import opened Marking
  import opened Collector
  import Grace
  import W = Witnesses

  /** One container of three bytes, the first of them a chunk. */
  function Sparse(c: ChunkID): Store {
    Store(map[c := Locator(0, 0, 1)], map[0 := 0], map[], map[0 := [7, 0, 0]], map[], 1)
  }

  lemma WitnessOK(s: NS, c: ChunkID)
    requires W.Reachable(s) && DirsBare(s)
    ensures DiskOK(Disk(s, Sparse(c)))
  {
    W.ReachableInv(s);
  }

  // --- the count ------------------------------------------------------------------------------

  /** A sweep that stops once it has dropped a locator leaves a disk whose next sweep counts that chunk again. */
  lemma StoppedSweepMiscounts(env: Env, d: Disk, c: ChunkID)
    requires Swept(env, d, c) && !IsLive(env, d, c)
    ensures !SweptLocated(env, DropLocator(d, c))
  {
    RefsSame(env, d, DropLocator(d, c), c);
  }

  /** The disk after the only file was unlinked. */
  function Unlinked(c: ChunkID): Disk {
    Disk(W.Discarded(Inline(c)), Sparse(c))
  }

  lemma UnlinkedSwept(c: ChunkID)
    ensures Swept(Env(0, {}, {}), Unlinked(c), c) && !IsLive(Env(0, {}, {}), Unlinked(c), c)
    ensures SweptLocated(Env(0, {}, {}), Unlinked(c)) && DiskOK(Unlinked(c))
  {
    var d, env := Unlinked(c), Env(0, {}, {});
    W.DiscardedReachable(Inline(c));
    WitnessOK(d.ns, c);
    assert Grave(0, 2) in d.ns.graves && Needs(d, 2, c);
    ExpiredIsUnprotected(env, d.ns, Grave(0, 2));
    assert d.ns.inode[ROOT].content == NoContent;
  }

  /** Such a stop: one chunk, one locator, and a run of the sweep that ends before the inode goes. */
  lemma MiscountReached(sum: Bytes -> Digest, c: ChunkID, grace: Time) returns (r: Run, log: Log)
    requires grace > Grace.MIN_GRACE
    ensures r.start == Unlinked(c) && W.Reachable(r.start.ns) && SweptLocated(r.env, r.start)
    ensures Starts(sum, r, Unlinked(c), grace, {}, {}) && Traced(sum, r, log)
    ensures !SweptLocated(r.env, log.last.disk)
  {
    hide TreeShape.Tree, ViewOf, IsLive, Swept, SweptLocated, DiskOK, Seasoned, Sound;
    var d, env := Unlinked(c), Env(0, {}, {});
    W.DiscardedReachable(Inline(c));
    UnlinkedSwept(c);
    r := Run(env, d, ViewOf(env, sum, d), grace, grace, Sound(env, sum, d), true);
    SeasonedStart(r);
    SeasonedLess(r, d.st, DropLocator(d, c).st);
    DropLocatorKeepsView(env, sum, d, c);
    DropLocatorSound(env, sum, d, c);
    StoppedSweepMiscounts(env, d, c);
    var e := Event(DropLocator(d, c), grace, grace);
    log := Then(Begin(Event(d, grace, grace)), e);
    assert Grace.Step(At(log.before.last), At(e), grace, grace);
  }

  // --- the sweep after one that was stopped --------------------------------------------------------

  /**
   A sweep stopped between an inode's record and its graveyard entry leaves an entry without a record. The next sweep,
   whatever its grace period and pins, gets through its mark phase exactly if by these the entry is past grace.
   */
  lemma ResumesIff(env: Env, d: Disk, id: InodeID)
    requires Markable(env, d)
    ensures Markable(env, DropInode(d, id)) <==> forall g :: g in d.ns.graves && g.id == id ==> Expired(env, g)
  {
    var d' := DropInode(d, id);
    forall x | Protected(env, d'.ns, x) ensures Protected(env, d.ns, x) && d'.ns.inode[x] == d.ns.inode[x] {
      if InGrace(env, d'.ns, x) {
        var g :| g in d'.ns.graves && g.id == x && !Expired(env, g);
        assert InGrace(env, d.ns, x);
      }
    }
  }

  /**
   Such a stop, from a reachable disk that marks with any grace period and no pins: every later sweep whose cutoff is
   before the unlinking, at 0, is refused by its mark phase.
   */
  lemma StuckReached(sum: Bytes -> Digest, c: ChunkID, grace: Time, later: Env) returns (r: Run, log: Log)
    requires grace > Grace.MIN_GRACE && later.held == {}
    ensures r.start == Unlinked(c) && W.Reachable(r.start.ns) && Markable(later, r.start)
    ensures Starts(sum, r, Unlinked(c), grace, {}, {}) && Traced(sum, r, log)
    ensures Markable(later, log.last.disk) <==> later.cutoff >= 0
  {
    hide TreeShape.Tree, ViewOf, IsLive, Swept, SweptLocated, DiskOK, Seasoned, Sound, Markable, Unlinked;
    var d, env := Unlinked(c), Env(0, {}, {});
    var d1 := DropLocator(d, c);
    W.DiscardedReachable(Inline(c));
    UnlinkedSwept(c);
    r := Run(env, d, ViewOf(env, sum, d), grace, grace, Sound(env, sum, d), true);
    SeasonedStart(r);
    SeasonedLess(r, d.st, d1.st);
    UnlinkedGrave(c);
    DropLocatorKeepsView(env, sum, d, c);
    DropLocatorOK(d, c);
    DropLocatorSound(env, sum, d, c);
    UnlinkedEmptied(env, c);
    DropInodeKeepsView(env, sum, d1, Grave(0, 2));
    DropInodeOK(env, d1, Grave(0, 2));
    DropInodeSound(env, sum, d1, Grave(0, 2));
    log := Then(Begin(Event(d, grace, grace)), Event(d1, grace, grace));
    assert Grace.Step(At(log.before.last), At(log.last), grace, grace);
    assert Traced(sum, r, log);
    log := Then(log, Event(DropInode(d1, 2), grace, grace));
    assert Grace.Step(At(log.before.last), At(log.last), grace, grace);
    UnlinkedMarkable(c, later);
    ResumesIff(later, d1, 2);
  }

  lemma UnlinkedEmptied(env: Env, c: ChunkID)
    requires env.cutoff == 0 && env.held == {}
    ensures Emptied(env, DropLocator(Unlinked(c), c), Grave(0, 2))
  {
    var d := DropLocator(Unlinked(c), c);
    assert d.ns.inode[2].content == Inline(c) && ChunkIDs(d.st, Inline(c)) == Some([c]);
  }

  lemma UnlinkedGrave(c: ChunkID)
    ensures Unlinked(c).ns.graves == {Grave(0, 2)} && Unlinked(c).ns == W.Discarded(Inline(c))
    ensures Grace.DeadUnreferenced(Unlinked(c).st) && Unlinked(c).st.dead == map[]
  {
  }

  lemma UnlinkedMarkable(c: ChunkID, env: Env)
    ensures Markable(env, Unlinked(c)) && Markable(env, DropLocator(Unlinked(c), c))
  {
  }

  // --- the reader -------------------------------------------------------------------------------

  /** The disk with one file, its chunk, and the three writes of a compaction that moves the chunk. */
  function File(c: ChunkID): Disk {
    Disk(W.Holding(Inline(c)), Sparse(c))
  }

  function Copied(c: ChunkID): Disk {
    AddObject(File(c), [7])
  }

  function Repointed(c: ChunkID, now: Time): Disk {
    MoveLocator(Copied(c), c, Locator(1, 0, 1), now)
  }

  function Retired(c: ChunkID, now: Time): Disk {
    MarkDead(Repointed(c, now), 0, 0)
  }

  /** The compaction reads the clock at 0 and writes at `slack`. */
  function Compaction(c: ChunkID, slack: Time): Log {
    Then(Then(Then(Begin(Event(File(c), 0, 0)), Event(Copied(c), slack, slack)), Event(Repointed(c, slack), slack, slack)),
         Event(Retired(c, slack), slack, 0))
  }

  /** A later sweep deletes the container. */
  function Reaping(c: ChunkID, slack: Time, at: Time): Log {
    Then(Begin(Event(Retired(c, slack), at, at)), Event(DropObject(Retired(c, slack), 0), at, at))
  }

  ghost function Compacts(sum: Bytes -> Digest, c: ChunkID, grace: Time): Run {
    var env := Env(-1, {}, {c});
    Run(env, File(c), ViewOf(env, sum, File(c)), grace, 0, false, true)
  }

  ghost function Sweeps(sum: Bytes -> Digest, c: ChunkID, grace: Time, slack: Time, at: Time): Run {
    var d, env := Retired(c, slack), Env(at - grace, {}, {});
    Run(env, d, ViewOf(env, sum, d), grace, at, Sound(env, sum, d), true)
  }

  lemma CopiedFine(sum: Bytes -> Digest, c: ChunkID, grace: Time)
    ensures W.Reachable(File(c).ns) && Fine(sum, Compacts(sum, c, grace), File(c)) && Fine(sum, Compacts(sum, c, grace), Copied(c))
  {
    hide TreeShape.Tree, ViewOf;
    W.HoldingReachable(Inline(c));
    WitnessOK(File(c).ns, c);
    AddObjectKeepsView(Env(-1, {}, {c}), sum, File(c), [7]);
  }

  lemma RepointedFine(sum: Bytes -> Digest, c: ChunkID, grace: Time, slack: Time)
    requires c == sum([7]) && slack >= 0
    ensures Fine(sum, Compacts(sum, c, grace), Repointed(c, slack))
  {
    hide TreeShape.Tree, ViewOf, Seasoned, SealedBy;
    CopiedFine(sum, c, grace);
    CompactionSealed(c, slack);
    var env, d := Env(-1, {}, {c}), Copied(c);
    MoveSeasoned(Compacts(sum, c, grace), d, c, Locator(1, 0, 1), slack, slack);
    assert d.st.objects[0][0..1] == [7] && d.st.objects[1][0..1] == [7];
    assert Relocates(env, sum, d, c, Locator(1, 0, 1), slack);
    MoveLocatorKeepsView(env, sum, d, c, Locator(1, 0, 1), slack);
    MoveLocatorOK(env, sum, d, c, Locator(1, 0, 1), slack);
  }

  lemma RetiredFine(sum: Bytes -> Digest, c: ChunkID, grace: Time, slack: Time)
    requires c == sum([7]) && slack >= 0
    ensures Fine(sum, Compacts(sum, c, grace), Retired(c, slack))
  {
    hide TreeShape.Tree, ViewOf;
    RepointedFine(sum, c, grace, slack);
    MarkDeadKeepsView(Env(-1, {}, {c}), sum, Repointed(c, slack), 0, 0);
  }

  lemma CompactionSteps(c: ChunkID, grace: Time, slack: Time)
    requires slack >= 0
    ensures Grace.Step(Grace.Moment(File(c).st, 0), Grace.Moment(Copied(c).st, slack), grace, slack)
    ensures Grace.Step(Grace.Moment(Copied(c).st, slack), Grace.Moment(Repointed(c, slack).st, slack), grace, slack)
    ensures Grace.Step(Grace.Moment(Repointed(c, slack).st, slack), Grace.Moment(Retired(c, slack).st, slack), grace, 0)
  {
  }

  lemma CompactionSealed(c: ChunkID, slack: Time)
    ensures SealedBy(File(c).st, Copied(c).st, slack) && SealedBy(File(c).st, Repointed(c, slack).st, slack)
    ensures SealedBy(File(c).st, Retired(c, slack).st, slack)
  {
  }

  lemma ReapingSealed(c: ChunkID, slack: Time, at: Time)
    ensures SealedBy(Retired(c, slack).st, DropObject(Retired(c, slack), 0).st, at)
  {
  }

  lemma CompactionTraced(sum: Bytes -> Digest, c: ChunkID, grace: Time, slack: Time)
    requires c == sum([7]) && slack >= 0
    ensures Traced(sum, Compacts(sum, c, grace), Compaction(c, slack)) && Prompt(Compaction(c, slack), slack)
  {
    hide Fine, Grace.Step, File, Copied, Repointed, Retired, ViewOf, SealedBy;
    CompactionSealed(c, slack);
    CopiedFine(sum, c, grace);
    RepointedFine(sum, c, grace, slack);
    RetiredFine(sum, c, grace, slack);
    CompactionSteps(c, grace, slack);
    var r, log := Compacts(sum, c, grace), Compaction(c, slack);
    var l0, l1, l2 := log.before.before.before, log.before.before, log.before;
    assert Traced(sum, r, l0) && Prompt(l0, slack);
    assert Traced(sum, r, l1) && Prompt(l1, slack);
    assert Traced(sum, r, l2) && Prompt(l2, slack);
  }

  lemma ReapingStep(c: ChunkID, grace: Time, slack: Time, at: Time)
    requires grace <= at
    ensures Grace.Step(Grace.Moment(Retired(c, slack).st, at), Grace.Moment(DropObject(Retired(c, slack), 0).st, at), grace, at)
    ensures 0 in Retired(c, slack).st.dead
  {
  }

  lemma ReapingFine(sum: Bytes -> Digest, c: ChunkID, grace: Time, slack: Time, at: Time)
    requires c == sum([7]) && 0 <= slack && grace <= at
    ensures var r, d := Sweeps(sum, c, grace, slack, at), Retired(c, slack);
            Fine(sum, r, d) && Fine(sum, r, DropObject(d, 0))
  {
    hide TreeShape.Tree, ViewOf, Retired, Sound, Inv, StoreOK, Seasoned;
    RetiredFine(sum, c, grace, slack);
    var d, env := Retired(c, slack), Env(at - grace, {}, {});
    SeasonedStart(Sweeps(sum, c, grace, slack, at));
    SeasonedLess(Sweeps(sum, c, grace, slack, at), d.st, DropObject(d, 0).st);
    ReapingStep(c, grace, slack, at);
    DropObjectKeepsView(env, sum, d, 0);
    DropObjectSound(env, sum, d, 0);
  }

  lemma ReapingTraced(sum: Bytes -> Digest, c: ChunkID, grace: Time, slack: Time, at: Time)
    requires c == sum([7]) && 0 <= slack <= at && grace <= at
    ensures Traced(sum, Sweeps(sum, c, grace, slack, at), Reaping(c, slack, at)) && Prompt(Reaping(c, slack, at), slack)
    ensures Starts(sum, Sweeps(sum, c, grace, slack, at), Retired(c, slack), grace, {}, {})
  {
    hide Fine, ViewOf, Grace.Step, Retired, DropObject, Sound, SealedBy;
    ReapingSealed(c, slack, at);
    ReapingFine(sum, c, grace, slack, at);
    ReapingStep(c, grace, slack, at);
    var log := Reaping(c, slack, at);
    assert Traced(sum, Sweeps(sum, c, grace, slack, at), log.before) && Prompt(log.before, slack);
  }

  lemma MomentsAre(c: ChunkID, slack: Time, at: Time)
    ensures Moments(Compaction(c, slack)) ==
            [Grace.Moment(File(c).st, 0), Grace.Moment(Copied(c).st, slack), Grace.Moment(Repointed(c, slack).st, slack),
             Grace.Moment(Retired(c, slack).st, slack)]
    ensures Moments(Reaping(c, slack, at)) ==
            [Grace.Moment(Retired(c, slack).st, at), Grace.Moment(DropObject(Retired(c, slack), 0).st, at)]
  {
    var log := Compaction(c, slack);
    assert Moments(log.before.before.before) == [Grace.Moment(File(c).st, 0)];
    assert Moments(log.before.before) == [Grace.Moment(File(c).st, 0), Grace.Moment(Copied(c).st, slack)];
    assert Moments(log.before) == Moments(log.before.before) + [Grace.Moment(Repointed(c, slack).st, slack)];
  }

  lemma RetiredUnreferenced(c: ChunkID, slack: Time)
    ensures Grace.DeadUnreferenced(Retired(c, slack).st)
  {
  }

  /** The locator a reader was given while the chunk was still where it was. */
  lemma CopiedReads(sum: Bytes -> Digest, slack: Time)
    ensures var c := sum([7]);
            && c in Copied(c).st.locators && ReadChunk(sum, Copied(c).st, c) == Some([7])
            && Fetch(sum, DropObject(Retired(c, slack), 0).st.objects, c, Copied(c).st.locators[c]) == None
  {
    assert Copied(sum([7])).st.objects[0][0..1] == [7];
  }

  /**
   Compact reads the clock once and stamps every retirement with it, so one that takes `slack` retires a container as of
   a time before its last locator went. From `slack >= grace - MIN_GRACE` on, a locator current at one moment can be
   gone within MIN_GRACE: a compaction, then a sweep.
   */
  lemma StaleReaderLost(sum: Bytes -> Digest, grace: Time, slack: Time) returns (c: ChunkID, at: Time, run: seq<Grace.Moment>)
    requires grace > Grace.MIN_GRACE && grace - Grace.MIN_GRACE <= slack
    ensures slack <= at && W.Reachable(File(c).ns)
    ensures Traced(sum, Compacts(sum, c, grace), Compaction(c, slack)) && Prompt(Compaction(c, slack), slack)
    ensures Traced(sum, Sweeps(sum, c, grace, slack, at), Reaping(c, slack, at)) && Prompt(Reaping(c, slack, at), slack)
    ensures run == Moments(Compaction(c, slack)) + Moments(Reaping(c, slack, at)) && |run| == 6 && Grace.Run(run, grace, slack)
    ensures c in run[1].st.locators && ReadChunk(sum, run[1].st, c) == Some([7])
    ensures run[5].now <= run[1].now + Grace.MIN_GRACE
    ensures Fetch(sum, run[5].st.objects, c, run[1].st.locators[c]) == None
  {
    hide Fine, Traced, Prompt, Moments, Copied, Repointed, Retired, ReadChunk, Fetch, DropObject, Grace.Run, Grace.DeadUnreferenced, W.Reachable, ViewOf, Sound, File;
    c, at := sum([7]), Later(grace, slack);
    CompactionTraced(sum, c, grace, slack);
    ReapingTraced(sum, c, grace, slack, at);
    CopiedFine(sum, c, grace);
    var a, b := Moments(Compaction(c, slack)), Moments(Reaping(c, slack, at));
    SweepIsGraceRun(sum, Compacts(sum, c, grace), Compaction(c, slack), slack);
    SweepIsGraceRun(sum, Sweeps(sum, c, grace, slack, at), Reaping(c, slack, at), slack);
    MomentsAre(c, slack, at);
    RetiredUnreferenced(c, slack);
    Grace.RunsFollow(a, b, grace, slack);
    CopiedReads(sum, slack);
    run := a + b;
  }

  // --- the writer ---------------------------------------------------------------------------------

  /** A sweep whose cutoff is 0. */
  const PAST := Env(0, {}, {})

  /** One container with one chunk, sealed at this time. */
  function Sealed(c: ChunkID, at: Time): Store {
    Sparse(c).(sealed := map[0 := at])
  }

  lemma SealedOK(s: NS, c: ChunkID, at: Time)
    requires W.Reachable(s) && DirsBare(s)
    ensures DiskOK(Disk(s, Sealed(c, at)))
  {
    hide TreeShape.Tree;
    W.ReachableInv(s);
  }

  /** Its chunk can be read, and so can all that namespaces without manifests need. */
  lemma SealedSound(env: Env, sum: Bytes -> Digest, s: NS, at: Time)
    requires forall id :: id in s.inode ==> !s.inode[id].content.ByManifest?
    requires forall g :: g in s.graves ==> g.id in s.inode
    ensures Sound(env, sum, Disk(s, Sealed(sum([7]), at)))
    ensures ReadContent(sum, Sealed(sum([7]), at), Inline(sum([7]))) == Some([7])
  {
    assert Sealed(sum([7]), at).objects[0][0..1] == [7];
  }

  /** A file of this content as a sweep leaves it: named, with its record, and unreadable. */
  ghost predicate Unreadable(sum: Bytes -> Digest, d: Disk, k: Slot, c: Content) {
    k in d.ns.dentry && d.ns.dentry[k] in d.ns.inode && d.ns.inode[d.ns.dentry[k]].content == c && ReadContent(sum, d.st, c) == None
  }

  /** The sweep that goes on with the marks of one disk on another; the chunk is not spared. */
  method StaleWitness(sum: Bytes -> Digest, before: NS, later: NS, at: Time, grace: Time) returns (ok: bool, d: Disk)
    requires grace > Grace.MIN_GRACE && DiskOK(Disk(before, Sealed(sum([7]), at))) && DiskOK(Disk(later, Sealed(sum([7]), at)))
    requires forall id :: id in before.inode ==> !before.inode[id].content.ByManifest?
    requires forall id :: id in later.inode ==> !later.inode[id].content.ByManifest?
    requires (forall g :: g in before.graves ==> g.id in before.inode) && (forall g :: g in later.graves ==> g.id in later.inode)
    requires Races(PAST, Disk(before, Sealed(sum([7]), at)), Disk(later, Sealed(sum([7]), at)), sum([7]))
    ensures ok && Standing(PAST, Disk(later, Sealed(sum([7]), at)), d)
    ensures ReadContent(sum, Sealed(sum([7]), at), Inline(sum([7]))) == Some([7]) && ReadContent(sum, d.st, Inline(sum([7]))) == None
  {
    hide DiskOK, Races, Standing;
    var c := sum([7]);
    SealedSound(PAST, sum, before, at);
    SealedSound(PAST, sum, later, at);
    var marked, live := MarkLive(PAST, Disk(before, Sealed(c, at)));
    ForgetsIsRaces(PAST, Disk(before, Sealed(c, at)), Disk(later, Sealed(c, at)), live);
    var col := new Collector(sum, Disk(later, Sealed(c, at)), grace);
    var removed;
    ok, removed := col.SweepStale(PAST, live, grace, 1, {});
    d := col.disk;
  }

  /**
   An orphan in an old container, taken up after the mark by an overwrite of the only file: the orphan phase goes by the
   marks, and the file is unreadable.
   */
  method DedupLost(sum: Bytes -> Digest, grace: Time) returns (ok: bool, d: Disk)
    requires grace > Grace.MIN_GRACE
    ensures var c := Inline(sum([7]));
            && ok && W.Reachable(W.NAMED) && CommitFile(W.NAMED, ROOT, "a", W.FILE.(content := c), 0) == Ok(W.Holding(c))
            && ReadContent(sum, Sealed(sum([7]), 0), c) == Some([7]) && Unreadable(sum, d, W.A, c)
  {
    hide DiskOK, ReadContent, Races;
    var c := sum([7]);
    OrphanTaken(c);
    ok, d := StaleWitness(sum, W.NAMED, W.Holding(Inline(c)), 0, grace);
    assert Stays(PAST, W.Holding(Inline(c)), 2);
  }

  lemma OrphanTaken(c: ChunkID)
    ensures W.Reachable(W.NAMED) && DiskOK(Disk(W.NAMED, Sealed(c, 0))) && DiskOK(Disk(W.Holding(Inline(c)), Sealed(c, 0)))
    ensures CommitFile(W.NAMED, ROOT, "a", W.FILE.(content := Inline(c)), 0) == Ok(W.Holding(Inline(c)))
    ensures Races(PAST, Disk(W.NAMED, Sealed(c, 0)), Disk(W.Holding(Inline(c)), Sealed(c, 0)), c)
  {
    hide DiskOK, W.Reachable;
    W.NamedReachable();
    SealedOK(W.NAMED, c, 0);
    W.HoldingReachable(Inline(c));
    SealedOK(W.Holding(Inline(c)), c, 0);
    assert forall id, x :: !Needs(Disk(W.NAMED, Sealed(c, 0)), id, x);
    var r := CommitFile(W.NAMED, ROOT, "a", W.FILE.(content := Inline(c)), 0);
    assert r.Ok? && r.value.inode == W.Holding(Inline(c)).inode;
  }

  /**
   A chunk of an unlinked file past grace, in a container that is young, taken up after the mark by a commit: the graveyard
   phase does not look at the container, and the new file is unreadable.
   */
  method BuriedLost(sum: Bytes -> Digest, grace: Time) returns (ok: bool, d: Disk)
    requires grace > Grace.MIN_GRACE
    ensures var c := Inline(sum([7]));
            && ok && W.Reachable(W.Discarded(c)) && CommitFile(W.Discarded(c), ROOT, "b", W.FILE.(content := c), 0) == Ok(W.Retaken(c))
            && !Aged(PAST, Sealed(sum([7]), 1), sum([7]))
            && ReadContent(sum, Sealed(sum([7]), 1), c) == Some([7]) && Unreadable(sum, d, W.B, c)
  {
    hide DiskOK, ReadContent, Races;
    var c := sum([7]);
    BuriedTaken(c);
    ok, d := StaleWitness(sum, W.Discarded(Inline(c)), W.Retaken(Inline(c)), 1, grace);
    assert Stays(PAST, W.Retaken(Inline(c)), 3);
  }

  lemma BuriedUnmarked(c: ChunkID)
    requires Inv(W.Discarded(Inline(c)))
    ensures !IsLive(PAST, Disk(W.Discarded(Inline(c)), Sealed(c, 1)), c)
  {
    var d := Disk(W.Discarded(Inline(c)), Sealed(c, 1));
    ExpiredIsUnprotected(PAST, d.ns, Grave(0, 2));
    assert d.ns.inode[ROOT].content == NoContent;
  }

  lemma BuriedTaken(c: ChunkID)
    ensures W.Reachable(W.Discarded(Inline(c)))
    ensures DiskOK(Disk(W.Discarded(Inline(c)), Sealed(c, 1))) && DiskOK(Disk(W.Retaken(Inline(c)), Sealed(c, 1)))
    ensures CommitFile(W.Discarded(Inline(c)), ROOT, "b", W.FILE.(content := Inline(c)), 0) == Ok(W.Retaken(Inline(c)))
    ensures Races(PAST, Disk(W.Discarded(Inline(c)), Sealed(c, 1)), Disk(W.Retaken(Inline(c)), Sealed(c, 1)), c)
  {
    hide DiskOK, W.Reachable, Inv, IsLive;
    W.DiscardedReachable(Inline(c));
    W.ReachableInv(W.Discarded(Inline(c)));
    SealedOK(W.Discarded(Inline(c)), c, 1);
    W.RetakenIs(Inline(c));
    W.RetakenReachable(Inline(c));
    SealedOK(W.Retaken(Inline(c)), c, 1);
    BuriedUnmarked(c);
    var later := Disk(W.Retaken(Inline(c)), Sealed(c, 1));
    assert Grave(0, 2) in later.ns.graves && Needs(later, 2, c);
  }
}
