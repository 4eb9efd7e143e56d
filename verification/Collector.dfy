/**
 Sweep of pkg/repo: mark, sweep the graveyard, sweep orphans, compact, reap. The log records the disk after every
 single write, so what is proved of it holds wherever a run may stop.
 */
module Collector {
  import opened Base
  import opened Namespace
  import TreeShape
  import Accounting
  import opened Histories
  import Manifest
  import opened Storage
  import opened Chunking
  import opened Garbage
  import opened GarbageWrites
  import opened Marking
  import opened Space
  import opened Repacking
  import Grace

  /** The disk after a write, when that was, and when the clock was read for what the write records. */
  datatype Event = Event(disk: Disk, now: Time, read: Time)

  /** The states of one run, oldest first. */
  datatype Log = Begin(last: Event) | Then(before: Log, last: Event)

  /**
   What a run is measured against: its environment, first disk, the view it must keep, grace period and start time. It
   keeps the view only if its marks are those of its first disk, as they are when nobody commits in between.
   */
  datatype Run = Run(env: Env, start: Disk, view: View, grace: Time, since: Time, sound: bool, marked: bool)

  function At(e: Event): Grace.Moment {
    Grace.Moment(e.disk.st, e.now)
  }

  /** Nothing a sweep fetches is missing or corrupt. */
  ghost predicate Sound(env: Env, sum: Bytes -> Digest, d: Disk) {
    Whole(env, d) && forall c :: c in d.st.locators ==> ReadChunk(sum, d.st, c).Some?
  }

  /**
   What a run does to seal times: it locates nothing anew, and what it moves goes to containers it made itself, which got
   their seal times while it ran. All others keep theirs.
   */
  ghost predicate Seasoned(r: Run, st: Store) {
    Seals(r.start.st, st, r.since) && st.locators.Keys <= r.start.st.locators.Keys
  }

  lemma SeasonedStart(r: Run)
    ensures Seasoned(r, r.start.st)
  {
  }

  lemma SeasonedLess(r: Run, st: Store, st': Store)
    requires Seasoned(r, st) && st'.sealed == st.sealed && st.nextKey <= st'.nextKey
    requires forall c :: c in st'.locators ==> c in st.locators && st'.locators[c] == st.locators[c]
    ensures Seasoned(r, st')
  {
  }

  lemma MoveSeasoned(r: Run, d: Disk, c: ChunkID, loc: Locator, now: Time, clock: Time)
    requires Seasoned(r, d.st) && SealedBy(r.start.st, d.st, clock) && c in d.st.locators
    requires r.since <= now <= clock && loc.container >= r.start.st.nextKey
    ensures Seasoned(r, MoveLocator(d, c, loc, now).st) && SealedBy(r.start.st, MoveLocator(d, c, loc, now).st, clock)
  {
  }

  /** A disk the run may be found in. */
  ghost predicate Fine(sum: Bytes -> Digest, r: Run, d: Disk) {
    DiskOK(d) && Seasoned(r, d.st) && (r.marked ==> ViewOf(r.env, sum, d) == r.view) && (r.sound ==> Sound(r.env, sum, d))
  }

  /** Every disk of the log is fine, and every step between two of them is one a stale reader survives. */
  ghost predicate Traced(sum: Bytes -> Digest, r: Run, log: Log) {
    match log
    case Begin(e) => Fine(sum, r, e.disk) && e.disk == r.start && r.since <= e.now
    case Then(before, e) =>
      && Traced(sum, r, before) && Fine(sum, r, e.disk)
      && Grace.Step(At(before.last), At(e), r.grace, e.read) && r.since <= e.read <= e.now && SealedBy(r.start.st, e.disk.st, e.now)
  }

  /** Every write comes at most `lag` after the clock reading it records. */
  ghost predicate Prompt(log: Log, lag: Time) {
    log.Then? ==> log.last.now <= log.last.read + lag && Prompt(log.before, lag)
  }

  lemma {:induction false} PromptMore(log: Log, lag: Time, lag': Time)
    requires Prompt(log, lag) && lag <= lag'
    ensures Prompt(log, lag')
  {
    if log.Then? {
      PromptMore(log.before, lag, lag');
    }
  }

  lemma {:induction false} TracedFine(sum: Bytes -> Digest, r: Run, log: Log)
    requires Traced(sum, r, log)
    ensures Fine(sum, r, log.last.disk) && r.since <= log.last.now
  {
    if log.Then? {
      TracedFine(sum, r, log.before);
    }
  }

  ghost predicate InLog(e: Event, log: Log) {
    log.last == e || (log.Then? && InLog(e, log.before))
  }

  lemma {:induction false} TracedAt(sum: Bytes -> Digest, r: Run, log: Log, e: Event)
    requires Traced(sum, r, log) && InLog(e, log)
    ensures Fine(sum, r, e.disk)
  {
    TracedFine(sum, r, log);
    if log.last != e {
      TracedAt(sum, r, log.before, e);
    }
  }

  lemma {:induction false} TracedStart(sum: Bytes -> Digest, r: Run, log: Log)
    requires Traced(sum, r, log)
    ensures Fine(sum, r, r.start)
  {
    if log.Then? {
      TracedStart(sum, r, log.before);
    }
  }

  /**
   Safety at every point a sweep can be stopped: what was reachable, in grace or held open when it began still has
   its record and reads back the same bytes, and the namespace and its accounts still hold.
   */
  lemma {:induction false} SweepNeverLoses(sum: Bytes -> Digest, r: Run, log: Log, e: Event, id: InodeID)
    requires Traced(sum, r, log) && r.marked && InLog(e, log) && Protected(r.env, r.start.ns, id)
    requires ReadContent(sum, r.start.st, r.start.ns.inode[id].content).Some?
    ensures Inv(e.disk.ns) && id in e.disk.ns.inode && e.disk.ns.inode[id] == r.start.ns.inode[id]
    ensures ReadContent(sum, e.disk.st, r.start.ns.inode[id].content) == ReadContent(sum, r.start.st, r.start.ns.inode[id].content)
  {
    TracedAt(sum, r, log, e);
    TracedStart(sum, r, log);
    ProtectedReadsSame(r.env, sum, r.start, e.disk, id);
  }

  /** At every such point each chunk that the run is to keep, referenced or not, is located and reads back the same bytes. */
  lemma KeptAlong(sum: Bytes -> Digest, r: Run, log: Log, e: Event, c: ChunkID)
    requires Traced(sum, r, log) && r.marked && InLog(e, log) && Keeps(r.env, r.start, c)
    ensures c in e.disk.st.locators && Keeps(r.env, e.disk, c)
    ensures ReadChunk(sum, r.start.st, c).Some? ==> ReadChunk(sum, e.disk.st, c) == ReadChunk(sum, r.start.st, c)
  {
    hide TreeShape.Tree, Accounting.Balanced, Keeps, ReadChunk, Sound, StoreOK;
    TracedAt(sum, r, log, e);
    TracedStart(sum, r, log);
    assert c in ViewOf(r.env, sum, r.start).chunks by {
      KeepsLocated(r.env, r.start, c);
    }
    assert c in ViewOf(r.env, sum, e.disk).chunks;
    if ReadChunk(sum, r.start.st, c).Some? {
      ViewRead(r.env, sum, r.start, e.disk, c);
    }
  }

  lemma KeepsLocated(env: Env, d: Disk, c: ChunkID)
    requires Keeps(env, d, c)
    ensures c in d.st.locators
  {
  }

  /**
   A sweep stopped at any of its states and run again from there, with the same cutoff and pins, ends with the same
   inodes, graveyard and located chunks as one that was not stopped.
   */
  lemma {:induction false} ResumedSweepConverges(sum: Bytes -> Digest, r: Run, log: Log, e: Event, r': Run, log': Log, once: Run, log1: Log)
    requires Traced(sum, r, log) && InLog(e, log) && r.marked && r'.marked && once.marked
    requires Traced(sum, r', log') && r'.start == e.disk && r'.env == r.env && Clean(r.env, log'.last.disk)
    requires Traced(sum, once, log1) && once.start == r.start && once.env == r.env && Clean(r.env, log1.last.disk)
    ensures log'.last.disk.ns.inode == log1.last.disk.ns.inode && log'.last.disk.ns.graves == log1.last.disk.ns.graves
    ensures log'.last.disk.st.locators.Keys == log1.last.disk.st.locators.Keys
  {
    TracedAt(sum, r, log, e);
    TracedStart(sum, r, log);
    TracedStart(sum, r', log');
    TracedFine(sum, r', log');
    TracedStart(sum, once, log1);
    TracedFine(sum, once, log1);
    InterruptedSweepConverges(r.env, sum, r.start, e.disk, log1.last.disk, log'.last.disk);
  }

  /** The states of a run as a stale reader sees them. */
  ghost function Moments(log: Log): seq<Grace.Moment> {
    match log
    case Begin(e) => [At(e)]
    case Then(before, e) => Moments(before) + [At(e)]
  }

  /** A sweep or compaction is a run that stale readers survive, its slack being how stale its retirement stamps are. */
  lemma {:induction false} SweepIsGraceRun(sum: Bytes -> Digest, r: Run, log: Log, slack: Time)
    requires Traced(sum, r, log) && Prompt(log, slack)
    ensures Grace.Run(Moments(log), r.grace, slack) && Moments(log)[|Moments(log)| - 1] == At(log.last)
  {
    if log.Then? {
      var before := log.before;
      assert Grace.Step(At(before.last), At(log.last), r.grace, log.last.read);
      SweepIsGraceRun(sum, r, before, slack);
      GraceRunNext(Moments(before), At(log.last), r.grace, slack, log.last.read);
    }
  }

  lemma GraceRunNext(run: seq<Grace.Moment>, m: Grace.Moment, grace: Time, slack: Time, since: Time)
    requires run != [] && Grace.Run(run, grace, slack)
    requires Grace.Step(run[|run| - 1], m, grace, since) && m.now <= since + slack
    ensures Grace.Run(run + [m], grace, slack)
  {
    var run' := run + [m];
    forall i | 0 <= i < |run'| - 1 ensures Grace.Step(run'[i], run'[i + 1], grace, run'[i + 1].now - slack) {
      if i < |run| - 1 {
        assert Grace.Step(run[i], run[i + 1], grace, run[i + 1].now - slack);
      } else {
        Grace.StepSince(run[i], m, grace, since, m.now - slack);
      }
    }
  }

  function Later(t: Time, u: Time): Time {
    if t < u then u else t
  }

  class Collector {
    const sum: Bytes -> Digest
    var disk: Disk
    var clock: Time
    ghost var log: Log
    /** How long after its clock reading a retirement was recorded, at most. */
    ghost var lag: Time

    constructor (sum: Bytes -> Digest, disk: Disk, clock: Time)
      ensures this.sum == sum && this.disk == disk && this.clock == clock
    {
      this.sum, this.disk, this.clock := sum, disk, clock;
      log, lag := Begin(Event(disk, clock, clock)), 0;
    }

    ghost predicate Valid(r: Run)
      reads this
    {
      && Traced(sum, r, log) && log.last.disk == disk && log.last.now <= clock && Fine(sum, r, disk) && r.since <= clock
      && lag >= 0 && Prompt(log, lag) && SealedBy(r.start.st, disk.st, clock)
    }

    /** Time may pass and nothing is retired late. */
    twostate predicate Ticks()
      reads this
    {
      old(clock) <= clock && lag == old(lag)
    }

    /** Time may pass, and what is retired is stamped no earlier than `at`. */
    twostate predicate TicksSince(at: Time)
      reads this
    {
      old(clock) <= clock && old(lag) <= lag <= Later(old(lag), clock - at)
    }

    /** What compaction starts from: only chunks that stay are located, and new containers are younger than the cutoff. */
    ghost predicate Ready(env: Env, r: Run)
      reads this
    {
      r.env == env && r.marked && Valid(r) && clock > env.cutoff && disk.st.locators.Keys == r.view.chunks
    }

    /** The clock only moves forward. */
    method Now() returns (t: Time)
      modifies this`clock
      ensures old(clock) <= clock == t
    {
      var dt: int := *;
      if dt > 0 {
        clock := clock + dt;
      }
      t := clock;
    }

    /** One database or backend write that retires nothing; time may have passed since the last one. */
    method Write(d: Disk, ghost r: Run)
      requires Valid(r) && Fine(sum, r, d) && SealedBy(r.start.st, d.st, clock) && d.st.dead.Keys <= disk.st.dead.Keys
      requires Grace.Step(At(log.last), Grace.Moment(d.st, clock), r.grace, clock)
      modifies this
      ensures Valid(r) && Ticks() && disk == d
    {
      hide TreeShape.Tree, Accounting.Balanced, ViewOf;
      var now := Now();
      disk := d;
      log := Then(log, Event(d, now, now));
    }

    /** One that records a clock reading. */
    method Stamp(d: Disk, at: Time, ghost r: Run)
      requires Valid(r) && Fine(sum, r, d) && SealedBy(r.start.st, d.st, clock) && r.since <= at <= clock
      requires Grace.Step(At(log.last), Grace.Moment(d.st, clock), r.grace, at)
      modifies this
      ensures Valid(r) && TicksSince(at) && disk == d
    {
      hide TreeShape.Tree, Accounting.Balanced, ViewOf;
      var now := Now();
      disk := d;
      PromptMore(log, lag, Later(lag, now - at));
      log := Then(log, Event(d, now, at));
      lag := Later(lag, now - at);
    }

    // --- the writes, one by one ------------------------------------------------------

    method DeleteLocator(c: ChunkID, ghost r: Run)
      requires Valid(r) && (r.marked ==> Droppable(r.env, disk, c))
      modifies this
      ensures Valid(r) && Ticks() && disk == DropLocator(old(disk), c)
    {
      hide TreeShape.Tree, Accounting.Balanced, ViewOf;
      if r.marked { DropLocatorKeepsView(r.env, sum, disk, c); }
      DropLocatorOK(disk, c);
      DropLocatorSound(r.env, sum, disk, c);
      Write(DropLocator(disk, c), r);
    }

    method RemoveInode(g: Grave, ghost r: Run)
      requires Valid(r) && g in disk.ns.graves && Expired(r.env, g) && (r.marked ==> Emptied(r.env, disk, g))
      modifies this
      ensures Valid(r) && Ticks() && disk == DropInode(old(disk), g.id)
    {
      hide TreeShape.Tree, Accounting.Balanced, ViewOf;
      if r.marked { DropInodeKeepsView(r.env, sum, disk, g); }
      DropInodeOK(r.env, disk, g);
      DropInodeSound(r.env, sum, disk, g);
      Write(DropInode(disk, g.id), r);
    }

    method RemoveGraveyardEntry(g: Grave, ghost r: Run)
      requires Valid(r) && Expired(r.env, g) && g.id !in disk.ns.inode
      modifies this
      ensures Valid(r) && Ticks() && disk == DropGrave(old(disk), g)
    {
      hide TreeShape.Tree, Accounting.Balanced, ViewOf;
      DropGraveKeepsView(r.env, sum, disk, g);
      DropGraveOK(disk, g);
      assert r.sound ==> Sound(r.env, sum, DropGrave(disk, g));
      Write(DropGrave(disk, g), r);
    }

    method PutContainer(data: Bytes, ghost r: Run) returns (key: Key)
      requires Valid(r)
      modifies this
      ensures Valid(r) && Ticks() && key == old(disk).st.nextKey && disk == AddObject(old(disk), data)
    {
      hide TreeShape.Tree, Accounting.Balanced, ViewOf;
      key := disk.st.nextKey;
      AddObjectKeepsView(r.env, sum, disk, data);
      AddObjectSound(r.env, sum, disk, data);
      Write(AddObject(disk, data), r);
    }

    method Repoint(c: ChunkID, loc: Locator, now: Time, ghost r: Run)
      requires Valid(r) && r.marked && Relocates(r.env, sum, disk, c, loc, now) && Keeps(r.env, disk, c)
      requires r.since <= now <= clock && loc.container >= r.start.st.nextKey
      modifies this
      ensures Valid(r) && Ticks() && disk == MoveLocator(old(disk), c, loc, now)
    {
      hide TreeShape.Tree, Accounting.Balanced, ViewOf, Seasoned, SealedBy, Sound, Keeps;
      MoveSeasoned(r, disk, c, loc, now, clock);
      MoveLocatorKeepsView(r.env, sum, disk, c, loc, now);
      MoveLocatorOK(r.env, sum, disk, c, loc, now);
      MoveLocatorSound(r.env, sum, disk, c, loc, now);
      Write(MoveLocator(disk, c, loc, now), r);
    }

    method MarkContainerDead(k: Key, at: Time, ghost r: Run)
      requires Valid(r) && k < disk.st.nextKey && k !in disk.st.dead && r.since <= at <= clock
      requires forall c :: c in disk.st.locators ==> disk.st.locators[c].container != k
      modifies this
      ensures Valid(r) && TicksSince(at) && disk == MarkDead(old(disk), k, at)
    {
      hide TreeShape.Tree, Accounting.Balanced, ViewOf;
      MarkDeadKeepsView(r.env, sum, disk, k, at);
      if r.sound {
        StoreOnlySound(r.env, sum, disk, MarkDead(disk, k, at));
      }
      Stamp(MarkDead(disk, k, at), at, r);
    }

    method DeleteObject(k: Key, ghost r: Run)
      requires Valid(r) && k in disk.st.dead && disk.st.dead[k] <= clock - r.grace
      modifies this
      ensures Valid(r) && Ticks() && disk == DropObject(old(disk), k)
    {
      hide TreeShape.Tree, Accounting.Balanced, ViewOf;
      DropObjectKeepsView(r.env, sum, disk, k);
      DropObjectSound(r.env, sum, disk, k);
      Write(DropObject(disk, k), r);
    }

    method RemoveDeadContainer(k: Key, ghost r: Run)
      requires Valid(r) && k !in disk.st.objects
      modifies this
      ensures Valid(r) && Ticks() && disk == UnmarkDead(old(disk), k)
    {
      hide TreeShape.Tree, Accounting.Balanced, ViewOf;
      UnmarkDeadKeepsView(r.env, sum, disk, k);
      if r.sound {
        StoreOnlySound(r.env, sum, disk, UnmarkDead(disk, k));
      }
      Write(UnmarkDead(disk, k), r);
    }

    // --- the graveyard ---------------------------------------------------------------

    /** The locators of one expired entry's chunks, except those marked or already removed in this run. */
    method DropChunks(g: Grave, ids: seq<ChunkID>, live: set<ChunkID>, removed0: set<ChunkID>, ghost r: Run)
      returns (removed: set<ChunkID>)
      requires Valid(r) && MarksIf(r, disk, live) && g in disk.ns.graves && Expired(r.env, g) && g.id in disk.ns.inode
      requires ChunkIDs(disk.st, disk.ns.inode[g.id].content) == Some(ids)
      requires removed0 !! disk.st.locators.Keys
      modifies this
      ensures Valid(r) && Ticks() && removed == removed0 + (SetOf(ids) - live)
      ensures disk == Without(old(disk), removed) && (r.marked ==> Emptied(r.env, disk, g))
    {
      hide TreeShape.Tree, Accounting.Balanced, ViewOf, Traced;
      removed := removed0;
      ghost var d0 := disk;
      WithoutAbsent(disk, removed);
      for i := 0 to |ids|
        invariant Valid(r) && Ticks() && disk == Without(d0, removed)
        invariant removed == removed0 + (SetOf(ids[..i]) - live)
      {
        var c := ids[i];
        SetOfNext(ids, i);
        if c !in live && c !in removed {
          if r.marked { MayDrop(r.env, sum, d0, removed, g, c, live); }
          DeleteLocator(c, r);
          WithoutNext(d0, removed, c);
          removed := removed + {c};
        }
      }
      SetOfAll(ids);
      if r.marked { DroppedAll(r.env, sum, d0, removed, g, live); }
    }

    /** One graveyard entry past grace: its chunks, its record, then the entry itself. */
    method SweepEntry(g: Grave, live: set<ChunkID>, removed0: set<ChunkID>, ghost r: Run)
      returns (ok: bool, removed: set<ChunkID>)
      requires Valid(r) && MarksIf(r, disk, live) && g in disk.ns.graves && Expired(r.env, g)
      requires removed0 !! disk.st.locators.Keys
      modifies this
      ensures Valid(r) && Ticks() && (r.sound ==> ok)
      ensures removed0 <= removed && (ok <==> Sweepable(old(disk), g.id))
      ensures removed !! disk.st.locators.Keys && disk.st == Without(old(disk), removed).st
      ensures ok ==> forall c :: c in removed <==> c in removed0 || (c !in live && Needs(old(disk), g.id, c))
      ensures ok ==> disk.ns.graves == old(disk).ns.graves - {g} && disk.ns.inode == old(disk).ns.inode - {g.id}
      ensures disk.ns.dentry == old(disk).ns.dentry
      ensures !ok ==> disk == old(disk) && removed == removed0
    {
      hide TreeShape.Tree, Accounting.Balanced, ViewOf, Traced;
      removed := removed0;
      WithoutAbsent(disk, removed);
      if g.id !in disk.ns.inode {
        RemoveGraveyardEntry(g, r);
        assert old(disk).ns.inode - {g.id} == old(disk).ns.inode;
        return true, removed;
      }
      var ids := ChunkIDs(disk.st, disk.ns.inode[g.id].content);
      if ids.None? { return false, removed; }
      removed := DropChunks(g, ids.value, live, removed0, r);
      RemoveInode(g, r);
      RemoveGraveyardEntry(g, r);
      ok := true;
    }

    /** Every entry past grace and unpinned, in any order. */
    method SweepGraveyard(env: Env, live: set<ChunkID>, ghost r: Run) returns (ok: bool, removed: set<ChunkID>)
      requires r.env == env && Valid(r) && MarksIf(r, disk, live)
      modifies this
      ensures Valid(r) && Ticks() && (r.sound ==> ok)
      ensures ok <==> AllSweepable(env, old(disk), old(disk).ns.graves)
      ensures removed !! live && removed !! disk.st.locators.Keys && disk.st == Without(old(disk), removed).st
      ensures ok ==> forall g :: g in disk.ns.graves ==> !Expired(r.env, g)
      ensures exists done :: done <= old(disk).ns.graves && Gathers(env, old(disk), done, live, removed)
      ensures ok ==> Gathers(env, old(disk), old(disk).ns.graves, live, removed)
      ensures Standing(env, old(disk), disk)
    {
      hide TreeShape.Tree, ViewOf, Traced, Gathers, Prompt, RecordsKept, Standing, Sweepable;
      removed := {};
      WithoutAbsent(disk, removed);
      ghost var d0 := disk;
      var todo := disk.ns.graves;
      ghost var done: set<Grave> := {};
      GathersNone(env, d0, live);
      StandingStart(env, d0);
      while todo != {}
        invariant Valid(r) && Ticks() && todo <= disk.ns.graves && Divides(d0.ns.graves, todo, done) && done <= d0.ns.graves
        invariant forall g :: g in disk.ns.graves && g !in todo ==> !Expired(r.env, g)
        invariant removed !! live && removed !! disk.st.locators.Keys && disk.st == Without(d0, removed).st
        invariant Gathers(env, d0, done, live, removed) && RecordsKept(d0, disk, todo) && Standing(env, d0, disk)
        invariant AllSweepable(env, d0, done)
        decreases |todo|
      {
        var g :| g in todo;
        if g.at <= env.cutoff && g.id !in env.held {
          MarksIfKept(sum, r, d0, disk, live);
          SweepableSame(d0, disk, removed, todo, g);
          ghost var before, was := disk, removed;
          ok, removed := SweepEntry(g, live, removed, r);
          WithoutMore(d0, before, was, removed);
          if !ok { return; }
          GathersNext(env, d0, done, g, live, was, before, todo, removed);
          RecordsKeptNext(d0, before, disk, todo, g);
          StandingNext(env, d0, before, disk, g);
        } else {
          GathersSkip(env, d0, done, g, live, removed);
          RecordsKeptSkip(d0, disk, todo, g);
        }
        DividesNext(d0.ns.graves, todo, done, g);
        todo, done := todo - {g}, done + {g};
      }
      assert done == d0.ns.graves;
      ok := true;
    }

    // --- orphans ---------------------------------------------------------------------

    /** An unmarked chunk goes if its container is known to be old; seal times are looked up once per container. */
    method DropIfAged(env: Env, c: ChunkID, live: set<ChunkID>, known0: map<Key, Option<Time>>, ghost r: Run)
      returns (dropped: bool, known: map<Key, Option<Time>>)
      requires r.env == env && Valid(r) && MarksIf(r, disk, live) && c in disk.st.locators && c !in live
      requires Memo(known0, disk.st.sealed)
      modifies this
      ensures Valid(r) && Ticks() && MarksIf(r, disk, live) && dropped == Aged(env, old(disk).st, c)
      ensures disk == if dropped then DropLocator(old(disk), c) else old(disk)
      ensures Memo(known, disk.st.sealed)
    {
      hide TreeShape.Tree, Accounting.Balanced, ViewOf, Traced;
      known := known0;
      var k := disk.st.locators[c].container;
      if k !in known {
        known := known[k := SealedAt(disk.st.sealed, k)];
      }
      dropped := known[k].Some? && known[k].value <= env.cutoff;
      if dropped {
        DeleteLocator(c, r);
        MarksIfKept(sum, r, old(disk), disk, live);
      }
    }

    /** Unmarked chunks in containers sealed by the cutoff. */
    method SweepOrphans(env: Env, live: set<ChunkID>, removed0: set<ChunkID>, ghost r: Run) returns (removed: set<ChunkID>)
      requires r.env == env && Valid(r) && MarksIf(r, disk, live)
      requires removed0 !! disk.st.locators.Keys && removed0 !! live
      requires forall g :: g in disk.ns.graves ==> !Expired(r.env, g)
      modifies this
      ensures Valid(r) && Ticks() && disk == Without(old(disk), removed) && removed0 <= removed && removed !! live
      ensures removed !! disk.st.locators.Keys && (r.marked ==> disk.st.locators.Keys == r.view.chunks)
      ensures disk.ns == old(disk).ns && Ages(env, old(disk).st, live, removed0, {}, removed)
    {
      hide TreeShape.Tree, Accounting.Balanced, ViewOf, Traced, Prompt, Ages;
      removed := removed0;
      WithoutAbsent(disk, removed);
      var todo := disk.st.locators.Keys;
      AgesNone(env, disk.st, live, removed0);
      var known: map<Key, Option<Time>> := map[];
      while todo != {}
        invariant Valid(r) && Ticks() && MarksIf(r, disk, live)
        invariant disk == Without(old(disk), removed) && removed0 <= removed && removed !! live
        invariant removed !! disk.st.locators.Keys && todo <= disk.st.locators.Keys
        invariant Memo(known, disk.st.sealed) && Ages(env, old(disk).st, live, removed0, todo, removed)
        invariant forall c :: c in disk.st.locators && c !in todo ==> c in live || !Aged(env, disk.st, c)
        decreases |todo|
      {
        var c :| c in todo;
        ghost var was := removed;
        if c !in live {
          ghost var before := disk;
          var dropped;
          dropped, known := DropIfAged(env, c, live, known, r);
          AgedAfter(env, before, c);
          if dropped {
            WithoutNext(old(disk), removed, c);
            DisjointNext(removed, live, c);
            removed := removed + {c};
          }
        }
        AgesNext(env, old(disk), live, removed0, todo, was, c, removed);
        todo := todo - {c};
      }
      if r.marked { OnlyKept(env, sum, disk, live); }
    }

    // --- compaction ------------------------------------------------------------------

    method RepointNext(env: Env, c: ChunkID, key: Key, locs: Locators, ghost d0: Disk, ghost done: set<ChunkID>, ghost since: Time, ghost r: Run)
      requires r.env == env && r.marked && Valid(r) && clock > env.cutoff && d0.st.locators.Keys == r.view.chunks
      requires Moving(env, sum, d0, disk, key, locs, done, since) && c in locs && c !in done && key >= r.start.st.nextKey
      requires env.cutoff < since <= clock
      modifies this
      ensures Valid(r) && Ticks() && Moving(env, sum, d0, disk, key, locs, done + {c}, since)
    {
      hide TreeShape.Tree, Accounting.Balanced, ViewOf, Traced;
      var now := Now();
      MovingNext(env, sum, d0, disk, key, locs, done, c, now, since);
      StillViewed(env, sum, disk, c, r.view);
      Repoint(c, locs[c], now, r);
    }

    /** The locators of a replacement container, repointed one transaction at a time. */
    method RepointAll(env: Env, key: Key, locs: Locators, ghost r: Run)
      requires r.env == env && r.marked && Valid(r) && clock > env.cutoff && disk.st.locators.Keys == r.view.chunks
      requires key !in disk.st.dead && key !in disk.st.sealed && r.start.st.nextKey <= key < disk.st.nextKey
      requires Relocatable(sum, disk.st, key, locs)
      modifies this
      ensures Valid(r) && Ticks() && disk.ns == old(disk).ns
      ensures disk.st == old(disk).st.(locators := old(disk).st.locators + locs, sealed := disk.st.sealed)
      ensures SealedOnly(old(disk).st.sealed, disk.st.sealed, key, locs, old(clock))
    {
      hide Fine, Traced;
      ghost var d0 := disk;
      var todo := locs.Keys;
      ghost var done: set<ChunkID> := {};
      OverlayNone(d0.st.locators, locs);
      while todo != {}
        invariant Valid(r) && Ticks() && Moving(env, sum, d0, disk, key, locs, done, old(clock))
        invariant Divides(locs.Keys, todo, done) && done <= locs.Keys
        decreases |todo|
      {
        var c :| c in todo;
        RepointNext(env, c, key, locs, d0, done, old(clock), r);
        DividesNext(locs.Keys, todo, done, c);
        todo, done := todo - {c}, done + {c};
      }
      MovedAll(env, sum, d0, disk, key, locs, done, old(clock));
    }

    /** Write the replacement, then repoint; the original is left for the caller to retire. */
    method RewriteContainer(env: Env, k: Key, entries: set<ChunkID>, ghost r: Run) returns (ok: bool)
      requires Ready(env, r) && k < disk.st.nextKey && entries == In(disk.st.locators, k).Keys
      modifies this
      ensures Ready(env, r) && Ticks() && (r.sound ==> ok)
      ensures ok <==> forall c :: c in entries ==> ReadChunk(sum, old(disk).st, c).Some?
      ensures if ok then disk.ns == old(disk).ns && Rewritten(old(disk).st, disk.st, k) else disk == old(disk)
      ensures Seals(old(disk).st, disk.st, old(clock))
    {
      hide Fine, Traced, Prompt, Packed, Relocatable, Rewritten, Seals, SealedBy, SealedOnly, StoreOK, ReadChunk;
      FineKeys(sum, r, disk);
      FineReads(sum, r, disk);
      if entries == {} {
        NothingToRewrite(disk.st, k);
        SealsNothing(disk.st, clock);
        return true;
      }
      SealsNothing(disk.st, clock);
      var data, locs;
      ok, data, locs := PackEntries(sum, disk.st, entries);
      if !ok { return; }
      ghost var st0 := disk.st;
      PackedIsRelocatable(sum, st0, entries, data, locs);
      PackedSome(sum, st0, entries, data, locs);
      PackedReads(sum, st0, entries, data, locs);
      var key := PutContainer(data, r);
      ghost var t := clock;
      RepointAll(env, key, locs, r);
      PackedIsRewritten(sum, st0, disk.st, k, data, locs);
      PackedSeals(sum, st0, disk.st, entries, data, locs, old(clock), t);
    }

    /** Rewrite one container and retire it. */
    method Retire(env: Env, k: Key, entries: set<ChunkID>, now: Time, ghost r: Run) returns (ok: bool)
      requires Ready(env, r) && r.since <= now <= clock
      requires k in disk.st.objects && k !in disk.st.dead && entries == In(disk.st.locators, k).Keys
      modifies this
      ensures Ready(env, r) && TicksSince(now) && (r.sound ==> ok)
      ensures ok <==> forall c :: c in entries ==> ReadChunk(sum, old(disk).st, c).Some?
      ensures disk.ns == old(disk).ns && (ok ==> Retired(old(disk), disk, k, now))
      ensures Seals(old(disk).st, disk.st, old(clock))
      ensures !ok ==> disk == old(disk)
    {
      hide TreeShape.Tree, Accounting.Balanced, ViewOf, Traced;
      ok := RewriteContainer(env, k, entries, r);
      if ok {
        MarkContainerDead(k, now, r);
      }
    }

    /** One container below the threshold: rewritten and retired. */
    method RetireListed(env: Env, k: Key, num: nat, den: nat, entries: set<ChunkID>, ghost dead: set<Key>, now: Time,
                        rewritten0: nat, ghost st0: Store, ghost todo: set<Key>, ghost r: Run)
      returns (ok: bool, rewritten: nat)
      requires Ready(env, r) && r.since <= now <= clock && k in todo && Grew(dead, disk.st.dead.Keys, rewritten0)
      requires Compacting(st0, disk.st, todo, num, den) && entries == In(st0.locators, k).Keys
      requires Retiring(st0, disk.st, todo, num, den, now) && KeysDrawn(st0) && Wasteful(st0, k, num, den)
      modifies this
      ensures Ready(env, r) && TicksSince(now) && (r.sound ==> ok) && disk.ns == old(disk).ns
      ensures ok <==> Legible(sum, st0, k)
      ensures ok ==> Compacting(st0, disk.st, todo - {k}, num, den) && Retiring(st0, disk.st, todo - {k}, num, den, now)
      ensures !ok ==> disk == old(disk) && rewritten == rewritten0
      ensures Grew(dead, disk.st.dead.Keys, rewritten) && Seals(old(disk).st, disk.st, old(clock))
    {
      hide Fine, Traced, Prompt, Grew, Compacting, Retiring, Wasteful, Retired, In, Legible, ReadChunk, KeysDrawn, StoreOK, Seals, SealedBy;
      FineStore(sum, r, disk);
      CompactingAt(st0, disk.st, todo, num, den, k);
      RetiredNotWasteful(st0, k, num, den);
      LegibleSame(sum, st0, disk.st, todo, num, den, k, entries);
      rewritten := rewritten0;
      ok := Retire(env, k, entries, now, r);
      if ok {
        RetiredRetires(st0, old(disk), disk, todo, k, now, num, den);
        RetiredAdvances(st0, old(disk), disk, todo, k, now, num, den);
        RetiredGrew(dead, old(disk), disk, k, now, rewritten);
        rewritten := rewritten + 1;
      }
    }

    /** One listed container: left alone if retired or dense, else rewritten and retired. */
    method CompactOne(env: Env, k: Key, num: nat, den: nat, tally: map<Key, Tally>, dead: set<Key>, now: Time,
                      rewritten0: nat, ghost st0: Store, ghost todo: set<Key>, ghost r: Run)
      returns (ok: bool, rewritten: nat)
      requires Ready(env, r) && r.since <= now <= clock && k in todo && Grew(dead, disk.st.dead.Keys, rewritten0)
      requires Compacting(st0, disk.st, todo, num, den) && Tallied(st0.locators, tally) && dead == st0.dead.Keys
      requires Retiring(st0, disk.st, todo, num, den, now) && KeysDrawn(st0)
      modifies this
      ensures Ready(env, r) && TicksSince(now) && (r.sound ==> ok) && disk.ns == old(disk).ns
      ensures ok <==> !Wasteful(st0, k, num, den) || Legible(sum, st0, k)
      ensures ok ==> Compacting(st0, disk.st, todo - {k}, num, den) && Retiring(st0, disk.st, todo - {k}, num, den, now)
      ensures !ok || !Wasteful(st0, k, num, den) ==> disk == old(disk) && rewritten == rewritten0
      ensures Grew(dead, disk.st.dead.Keys, rewritten) && Seals(old(disk).st, disk.st, old(clock))
    {
      hide Fine, Traced, Prompt, Grew, Compacting, Retiring, Wasteful, Retired, Tallied, In, LiveBytes, DenseEnough, Legible;
      hide ReadChunk, KeysDrawn, StoreOK, TallyOf, Seals, SealedBy;
      SealsNothing(disk.st, clock);
      CompactingAt(st0, disk.st, todo, num, den, k);
      rewritten := rewritten0;
      var t := TallyOf(st0.locators, tally, k);
      RetiredNotWasteful(st0, k, num, den);
      if k !in dead { DenseEnoughIff(st0, k, num, den); }
      if k in dead || DenseEnough(t.liveBytes, |disk.st.objects[k]|, num, den) {
        SkippedSettles(st0, disk.st, todo, num, den, k);
        RetiringSkips(st0, disk.st, todo, num, den, now, k);
        return true, rewritten;
      }
      ok, rewritten := RetireListed(env, k, num, den, t.entries, dead, now, rewritten0, st0, todo, r);
    }

    /** The listed containers one after the other, with the clock read at `now`. */
    method CompactFrom(env: Env, num: nat, den: nat, now: Time, ghost r: Run) returns (ok: bool, rewritten: nat)
      requires Ready(env, r) && r.since <= now <= clock
      modifies this
      ensures Ready(env, r) && TicksSince(now) && disk.ns == old(disk).ns && (r.sound ==> ok)
      ensures ok <==> AllLegible(sum, old(disk).st, num, den)
      ensures ok ==> AllSettled(disk.st, num, den) && Retiring(old(disk).st, disk.st, {}, num, den, now)
      ensures exists left :: Retiring(old(disk).st, disk.st, left, num, den, now)
      ensures Grew(old(disk).st.dead.Keys, disk.st.dead.Keys, rewritten) && Seals(old(disk).st, disk.st, old(clock))
    {
      hide Fine, Traced, Prompt, Grew, Compacting, AllSettled, Retiring, Wasteful, Legible, Seals, SealedBy;
      SealsNothing(disk.st, clock);
      var tally := TallyContainers(disk.st.locators);
      var todo := disk.st.objects.Keys;
      var dead := disk.st.dead.Keys;
      ghost var st0 := disk.st;
      FineDrawn(sum, r, disk);
      CompactingStarts(st0, num, den);
      RetiringStarts(st0, todo, num, den, now);
      GrewNone(dead);
      rewritten := 0;
      while todo != {}
        invariant Ready(env, r) && TicksSince(now) && now <= clock && disk.ns == old(disk).ns && Grew(dead, disk.st.dead.Keys, rewritten)
        invariant Compacting(st0, disk.st, todo, num, den) && Retiring(st0, disk.st, todo, num, den, now) && Seals(st0, disk.st, old(clock))
        invariant forall k :: k in st0.objects && k !in todo && Wasteful(st0, k, num, den) ==> Legible(sum, st0, k)
        decreases |todo|
      {
        var k :| k in todo;
        ghost var st1, t := disk.st, clock;
        ok, rewritten := CompactOne(env, k, num, den, tally, dead, now, rewritten, st0, todo, r);
        SealsTwice(st0, st1, disk.st, old(clock), t);
        if !ok { return; }
        Smaller(todo, k);
        todo := todo - {k};
      }
      CompactingEnds(st0, disk.st, num, den);
      WastefulListed(st0, num, den);
      ok := true;
    }

    /** Rewrite every container whose live fraction is below num / den; the clock is read once. */
    method Compact(env: Env, num: nat, den: nat, ghost r: Run) returns (ok: bool, rewritten: nat)
      requires Ready(env, r)
      modifies this
      ensures Ready(env, r) && TicksSince(old(clock)) && disk.ns == old(disk).ns && (r.sound ==> ok)
      ensures ok <==> AllLegible(sum, old(disk).st, num, den)
      ensures ok ==> AllSettled(disk.st, num, den)
      ensures Grew(old(disk).st.dead.Keys, disk.st.dead.Keys, rewritten)
      ensures Seals(old(disk).st, disk.st, old(clock)) && SealedBy(old(disk).st, disk.st, clock)
      ensures exists at, left :: old(clock) <= at <= clock && Retiring(old(disk).st, disk.st, left, num, den, at)
      ensures ok ==> exists at :: old(clock) <= at <= clock && Retiring(old(disk).st, disk.st, {}, num, den, at)
    {
      hide Fine, Traced, Prompt, Grew, AllSettled, Retiring, AllLegible, Seals, SealedBy;
      ghost var st0, t := disk.st, clock;
      FineSealed(sum, r, disk);
      var now := Now();
      ghost var t1 := clock;
      SealedByMore(r.start.st, disk.st, t, t1);
      ok, rewritten := CompactFrom(env, num, den, now, r);
      SealsSooner(st0, disk.st, t1, t);
      SealedByLater(r.start.st, st0, disk.st, clock);
    }

    /**
     Compact on its own: exactly the containers below the threshold are retired, as of one moment of the run, and counted;
     dense ones and their locators are left as they are. Every chunk that was located still is, reads back the same bytes at every state of the run,
     and names, inodes and manifests are untouched. It fails exactly if some chunk of a container below the threshold
     cannot be read.
     */
    method CompactAlone(num: nat, den: nat, ghost grace: Time) returns (ok: bool, rewritten: nat, ghost r: Run)
      requires DiskOK(disk)
      modifies this
      ensures Valid(r) && r.grace == grace && old(clock) <= r.since && lag <= clock - old(clock)
      ensures r.start == old(disk) && disk.ns == old(disk).ns && disk.st.locators.Keys == old(disk).st.locators.Keys
      ensures forall e, c :: InLog(e, log) && c in old(disk).st.locators && ReadChunk(sum, old(disk).st, c).Some? ==>
                ReadChunk(sum, e.disk.st, c) == ReadChunk(sum, old(disk).st, c)
      ensures ok ==> AllSettled(disk.st, num, den)
      ensures ok ==> exists at :: old(clock) <= at <= clock && Retiring(old(disk).st, disk.st, {}, num, den, at)
      ensures ok ==> rewritten == |set k | k in old(disk).st.objects && Wasteful(old(disk).st, k, num, den)|
      ensures Grew(old(disk).st.dead.Keys, disk.st.dead.Keys, rewritten)
      ensures ok <==> AllLegible(sum, old(disk).st, num, den)
      ensures Seals(old(disk).st, disk.st, old(clock)) && SealedBy(old(disk).st, disk.st, clock)
    {
      hide Fine, Traced, Prompt, ViewOf, Sound, AllSettled, Retiring, Wasteful, AllLegible, Grew, InLog, ReadChunk, DiskOK, Seals, SealedBy;
      ghost var t0 := clock;
      var now := Now();
      var env := Env(now - 1, {}, disk.st.locators.Keys);
      r := Run(env, disk, ViewOf(env, sum, disk), grace, now, Sound(env, sum, disk), true);
      log, lag := Begin(Event(disk, now, now)), 0;
      StartFine(sum, r);
      TracedBegin(sum, r, log);
      AllPending(env, sum, disk);
      StartSealed(disk.st, clock);
      ok, rewritten := Compact(env, num, den, r);
      SealsSooner(old(disk).st, disk.st, r.since, t0);
      if ok {
        ghost var at :| old(clock) <= at <= clock && Retiring(old(disk).st, disk.st, {}, num, den, at);
        RetiredCount(old(disk).st, disk.st, num, den, at, rewritten);
      }
      forall e, c | InLog(e, log) && c in old(disk).st.locators && ReadChunk(sum, old(disk).st, c).Some?
        ensures ReadChunk(sum, e.disk.st, c) == ReadChunk(sum, old(disk).st, c)
      {
        PendingKept(env, old(disk), c);
        KeptAlong(sum, r, log, e, c);
      }
    }

    // --- reaping ---------------------------------------------------------------------

    /** The containers retired by the cutoff, in some order. */
    method Due(cutoff: Time) returns (keys: seq<Key>)
      ensures SetOf(keys) == DueSet(disk.st.dead, cutoff) && Distinct(keys)
    {
      keys := [];
      var todo := disk.st.dead.Keys;
      while todo != {}
        invariant todo <= disk.st.dead.Keys && Distinct(keys)
        invariant forall k :: k in keys <==> k in disk.st.dead && k !in todo && disk.st.dead[k] <= cutoff
        decreases |todo|
      {
        var k :| k in todo;
        if disk.st.dead[k] <= cutoff {
          keys := keys + [k];
        }
        todo := todo - {k};
      }
    }

    /** The backend deletes what it can of one batch. */
    method DeleteObjects(keys: seq<Key>, failed: set<Key>, ghost r: Run)
      requires Valid(r) && forall k :: k in keys ==> k in disk.st.dead && disk.st.dead[k] <= clock - r.grace
      modifies this
      ensures Valid(r) && Ticks() && disk == Reaped(old(disk), SetOf(keys) - failed, {})
    {
      hide Fine, Traced;
      ghost var gone: set<Key> := {};
      ReapedNone(disk);
      for i := 0 to |keys|
        invariant Valid(r) && Ticks() && disk == Reaped(old(disk), gone, {}) && gone == SetOf(keys[..i]) - failed
      {
        SetOfNext(keys, i);
        if keys[i] !in failed {
          ReapedNext(old(disk), gone, {}, keys[i]);
          DeleteObject(keys[i], r);
          gone := gone + {keys[i]};
        }
      }
      SetOfAll(keys);
    }

    /** Each entry of a deleted batch goes, up to the first object that was not deleted. */
    method ForgetDead(keys: seq<Key>, failed: set<Key>, ghost r: Run) returns (ok: bool, ghost cleared: set<Key>)
      requires Valid(r) && forall k :: k in keys && k !in failed ==> k !in disk.st.objects
      modifies this
      ensures Valid(r) && Ticks() && disk == Reaped(old(disk), {}, cleared) && cleared <= SetOf(keys) - failed
      ensures ok <==> SetOf(keys) !! failed
      ensures ok ==> cleared == SetOf(keys)
    {
      hide Fine, Traced;
      cleared := {};
      ReapedNone(disk);
      for i := 0 to |keys|
        invariant Valid(r) && Ticks() && disk == Reaped(old(disk), {}, cleared) && cleared == SetOf(keys[..i]) && cleared !! failed
      {
        SetOfNext(keys, i);
        if keys[i] in failed {
          assert keys[i] in SetOf(keys);
          return false, cleared;
        }
        ReapedNext(old(disk), {}, cleared, keys[i]);
        RemoveDeadContainer(keys[i], r);
        cleared := cleared + {keys[i]};
      }
      SetOfAll(keys);
      ok := true;
    }

    /** Delete the objects of one batch; each entry goes once its own object has. */
    method ReapBatch(keys: seq<Key>, failed: set<Key>, ghost r: Run) returns (ok: bool, ghost gone: set<Key>, ghost cleared: set<Key>)
      requires Valid(r) && forall k :: k in keys ==> k in disk.st.dead && disk.st.dead[k] <= clock - r.grace
      modifies this
      ensures Valid(r) && Ticks() && disk == Reaped(old(disk), gone, cleared) && cleared <= gone == SetOf(keys) - failed
      ensures ok <==> SetOf(keys) !! failed
      ensures ok ==> gone == cleared == SetOf(keys)
      ensures keys != [] ==> |gone - cleared| < |keys|
    {
      hide Fine, Traced;
      LeftInBatch(keys, failed);
      DeleteObjects(keys, failed, r);
      gone := SetOf(keys) - failed;
      ok, cleared := ForgetDead(keys, failed, r);
      ReapedTwice(old(disk), gone, {}, {}, cleared);
    }

    /** The next batch, after those before it went through. */
    method ReapRange(keys: seq<Key>, start: nat, end: nat, failed: set<Key>, ghost cutoff: Time, ghost d0: Disk, ghost r: Run)
      returns (ok: bool, ghost gone: set<Key>, ghost cleared: set<Key>)
      requires Valid(r) && cutoff <= clock - r.grace && start < end <= |keys| && Distinct(keys) && SetOf(keys) == DueSet(d0.st.dead, cutoff)
      requires disk == Reaped(d0, SetOf(keys[..start]), SetOf(keys[..start])) && SetOf(keys[..start]) !! failed
      modifies this
      ensures Valid(r) && Ticks() && disk == Reaped(d0, gone, cleared) && cleared <= gone <= SetOf(keys) - failed
      ensures ok <==> SetOf(keys[..end]) !! failed
      ensures ok ==> gone == cleared == SetOf(keys[..end])
      ensures |gone - cleared| < end - start
    {
      hide Fine, Traced, Reaped, DueSet, Distinct, SetOf;
      ghost var done := SetOf(keys[..start]);
      RangeOf(keys, start, end);
      BatchDue(d0, done, keys[start..end], cutoff);
      ok, gone, cleared := ReapBatch(keys[start..end], failed, r);
      ReapedTwice(d0, done, done, gone, cleared);
      RangeReaped(keys, start, end, failed, gone, cleared, ok);
      gone, cleared := done + gone, done + cleared;
    }

    /**
     Every container retired by the cutoff, in batches; a batch size that is not positive counts as one. If a deletion
     fails, fewer containers than a batch are gone with their entries left.
     */
    method Reap(cutoff: Time, batchDelete: int, failed: set<Key>, ghost r: Run)
      returns (ok: bool, ghost gone: set<Key>, ghost cleared: set<Key>)
      requires Valid(r) && cutoff <= clock - r.grace
      modifies this
      ensures Valid(r) && Ticks() && disk == Reaped(old(disk), gone, cleared)
      ensures cleared <= gone <= DueSet(old(disk).st.dead, cutoff) - failed
      ensures ok <==> DueSet(old(disk).st.dead, cutoff) !! failed
      ensures ok ==> gone == cleared == DueSet(old(disk).st.dead, cutoff)
      ensures |gone - cleared| < if batchDelete <= 0 then 1 else batchDelete
    {
      hide Fine, Traced, Reaped, DueSet, Distinct, SetOf;
      var keys := Due(cutoff);
      var batch := if batchDelete <= 0 then 1 else batchDelete;
      var start := 0;
      gone, cleared := {}, {};
      ReapedNone(disk);
      SetOfNone<Key>();
      while start < |keys|
        invariant 0 <= start <= |keys| && Valid(r) && Ticks() && disk == Reaped(old(disk), gone, cleared)
        invariant gone == cleared == SetOf(keys[..start]) && SetOf(keys[..start]) !! failed
      {
        var end := Min(start + batch, |keys|);
        RangeOf(keys, 0, end);
        ok, gone, cleared := ReapRange(keys, start, end, failed, cutoff, old(disk), r);
        if !ok { return; }
        start := end;
      }
      assert keys[..|keys|] == keys;
      ok := true;
    }

    // --- the whole run -----------------------------------------------------------------

    /** The graveyard and the orphans: which chunks lose their locators, going by these marks, right or not. */
    method Reclaim(env: Env, live: set<ChunkID>, ghost r: Run) returns (ok: bool, removed: set<ChunkID>)
      requires r.env == env && Valid(r) && MarksIf(r, disk, live)
      modifies this
      ensures Valid(r) && Ticks() && (r.sound ==> ok) && (ok <==> AllSweepable(env, old(disk), old(disk).ns.graves))
      ensures disk.st == Without(old(disk), removed).st
      ensures forall c :: c in removed ==> Forgets(env, old(disk), live, c)
      ensures ok ==> forall c :: c in removed <==> Forgets(env, old(disk), live, c)
      ensures ok ==> forall g :: g in disk.ns.graves ==> !Expired(env, g)
      ensures Standing(env, old(disk), disk)
      ensures ok && r.marked ==> disk.st.locators.Keys == r.view.chunks
    {
      hide TreeShape.Tree, Accounting.Balanced, ViewOf, Traced, Gathers, Ages, Forgets, Prompt, Standing;
      ghost var d0 := disk;
      ok, removed := SweepGraveyard(env, live, r);
      ghost var done :| done <= d0.ns.graves && Gathers(env, d0, done, live, removed);
      GathersForgets(env, d0, done, live, removed);
      if !ok { return; }
      MarksIfKept(sum, r, d0, disk, live);
      ghost var d1, swept := disk, removed;
      removed := SweepOrphans(env, live, removed, r);
      WithoutMore(d0, d1, swept, removed);
      AgesForgets(env, d0, d1, live, swept, removed);
      StandingSame(env, d0, d1, disk);
    }

    /** Compaction and reaping: what they leave of the space. */
    method Tidy(env: Env, batchDelete: int, failed: set<Key>, ghost r: Run) returns (ok: bool)
      requires Ready(env, r) && env.cutoff <= clock - r.grace && forall g :: g in disk.ns.graves ==> !Expired(env, g)
      modifies this
      ensures Valid(r) && TicksSince(old(clock)) && (r.sound && failed == {} ==> ok)
      ensures ok <==> AllLegible(sum, old(disk).st, 1, 2) && DueSet(old(disk).st.dead, env.cutoff) !! failed
      ensures disk.st.locators.Keys == old(disk).st.locators.Keys && disk.ns == old(disk).ns
      ensures Deletes(old(disk).st, disk.st, env.cutoff, failed)
      ensures ok ==> Clean(env, disk) && AllSettled(disk.st, 1, 2) && Tidied(old(disk).st, disk.st, env.cutoff)
      ensures ok ==> forall k :: k in disk.st.dead ==> disk.st.dead[k] > env.cutoff
    {
      hide Deletes, Fine, Traced, Prompt, Clean, AllSettled, Grew, Retiring, Wasteful, Tidied, AllLegible;
      var rewritten;
      ok, rewritten := Compact(env, 1, 2, r);
      if !ok {
        ghost var at, left :| old(clock) <= at <= clock && Retiring(old(disk).st, disk.st, left, 1, 2, at);
        RetiringDeletes(old(disk).st, disk.st, left, 1, 2, at, env.cutoff, failed);
        return;
      }
      ghost var at :| old(clock) <= at <= clock && Retiring(old(disk).st, disk.st, {}, 1, 2, at);
      ghost var d := disk;
      ghost var gone, cleared;
      DueSame(old(disk).st, d.st, at, env.cutoff);
      ok, gone, cleared := Reap(env.cutoff, batchDelete, failed, r);
      ReapedDeletes(old(disk).st, d, gone, cleared, {}, at, env.cutoff, failed);
      if ok {
        ReapedSettled(d, gone, 1, 2);
        AllKept(env, sum, disk, r);
        ReapedTidied(old(disk).st, d, disk, env.cutoff, at);
      }
    }

    /** The phases after the mark: graveyard, orphans, compaction, reaping. */
    method SweepMarked(env: Env, live: set<ChunkID>, batchDelete: int, failed: set<Key>, ghost r: Run)
      returns (ok: bool, removed: set<ChunkID>)
      requires r.env == env && r.marked && Valid(r) && Marks(env, disk, live) && clock > env.cutoff && env.cutoff <= clock - r.grace
      modifies this
      ensures Valid(r) && TicksSince(old(clock)) && (r.sound && failed == {} ==> ok)
      ensures ok <==> Finishes(env, sum, old(disk), failed)
      ensures disk.st.locators.Keys == old(disk).st.locators.Keys - removed
      ensures forall c :: c in removed ==> Collects(env, old(disk), c)
      ensures ok || r.sound ==> forall c :: c in removed <==> Collects(env, old(disk), c)
      ensures Deletes(old(disk).st, disk.st, env.cutoff, failed)
      ensures ok ==> Clean(env, disk) && AllSettled(disk.st, 1, 2) && Tidied(Without(old(disk), removed).st, disk.st, env.cutoff)
      ensures ok ==> forall k :: k in disk.st.dead ==> disk.st.dead[k] > env.cutoff
    {
      hide Deletes, Fine, Traced, Collects, Forgets, Prompt, Clean, AllSettled, Tidied, AllSweepable, AllLegible;
      MarkedCollects(env, disk, live);
      ok, removed := Reclaim(env, live, r);
      DeletesNothing(old(disk).st, disk.st, env.cutoff, failed);
      if !ok { return; }
      CollectedAll(env, old(disk), removed);
      ghost var st1 := disk.st;
      ok := Tidy(env, batchDelete, failed, r);
      DeletesBetween(old(disk).st, st1, disk.st, env.cutoff, failed);
    }

    /**
     The rest of a sweep whose marks are older than the disk, other clients having committed since. A file that could be
     read when they were done keeps its name and record, and still reads the same if and only if none of its chunks is forgotten, and those are, when the
     sweep gets through, exactly the chunks unmarked then that are swept or aged now.
     */
    method SweepStale(env: Env, live: set<ChunkID>, grace: Time, batchDelete: int, failed: set<Key>)
      returns (ok: bool, removed: set<ChunkID>)
      requires DiskOK(disk) && clock > env.cutoff && env.cutoff <= clock - grace
      modifies this
      ensures DiskOK(disk) && clock >= old(clock) && Standing(env, old(disk), disk) && (failed == {} && Sound(env, sum, old(disk)) ==> ok)
      ensures disk.st.locators.Keys == old(disk).st.locators.Keys - removed
      ensures forall c :: c in removed ==> Forgets(env, old(disk), live, c)
      ensures ok ==> forall c :: c in removed <==> Forgets(env, old(disk), live, c)
      ensures forall c :: ReadContent(sum, old(disk).st, c).Some? ==>
                            (ReadContent(sum, disk.st, c) == ReadContent(sum, old(disk).st, c) <==> Spared(old(disk).st, c, removed))
    {
      hide TreeShape.Tree, Accounting.Balanced, ViewOf, Traced, Prompt, Forgets, Sound, Spared, ReadContent, Clean, AllSettled, Standing, Tidied;
      ghost var d0 := disk;
      ghost var r := Run(env, disk, ViewOf(env, sum, disk), grace, clock, Sound(env, sum, disk), false);
      log, lag := Begin(Event(disk, clock, clock)), 0;
      TracedBegin(sum, r, log);
      ok, removed := Reclaim(env, live, r);
      ghost var d1 := disk;
      if ok {
        ok := TidyStale(env, grace, batchDelete, failed);
        StandingSame(env, d0, d1, disk);
      }
      forall c | ReadContent(sum, d0.st, c).Some?
        ensures ReadContent(sum, disk.st, c) == ReadContent(sum, d0.st, c) <==> Spared(d0.st, c, removed)
      {
        SparedReads(sum, d0, d1, disk, removed, c);
      }
    }

    /** Compaction and reaping with no marks at all: whatever is located stays located and reads the same. */
    method TidyStale(env: Env, grace: Time, batchDelete: int, failed: set<Key>) returns (ok: bool)
      requires DiskOK(disk) && clock > env.cutoff && env.cutoff <= clock - grace
      requires forall g :: g in disk.ns.graves ==> !Expired(env, g)
      modifies this
      ensures DiskOK(disk) && clock >= old(clock) && (failed == {} && Sound(env, sum, old(disk)) ==> ok)
      ensures disk.ns == old(disk).ns
      ensures disk.st.locators.Keys == old(disk).st.locators.Keys && disk.st.manifests == old(disk).st.manifests
      ensures forall c :: c in disk.st.locators && ReadChunk(sum, old(disk).st, c).Some? ==>
                            ReadChunk(sum, disk.st, c) == ReadChunk(sum, old(disk).st, c)
    {
      hide TreeShape.Tree, Accounting.Balanced, ViewOf, Traced, Prompt, Clean, AllSettled, Tidied;
      ghost var d0 := disk;
      var env' := env.(pending := disk.st.locators.Keys);
      ghost var r := Run(env', disk, ViewOf(env', sum, disk), grace, clock, Sound(env', sum, disk), true);
      log, lag := Begin(Event(disk, clock, clock)), 0;
      TracedBegin(sum, r, log);
      AllPending(env', sum, disk);
      ok := Tidy(env', batchDelete, failed, r);
      ViewManifests(env', sum, d0, disk);
      forall c | c in disk.st.locators && ReadChunk(sum, d0.st, c).Some?
        ensures ReadChunk(sum, disk.st, c) == ReadChunk(sum, d0.st, c)
      {
        PendingKept(env', d0, c);
        ViewRead(env', sum, d0, disk, c);
      }
    }

    /**
     Sweep. A grace period that does not exceed one hour, thirty and a half seconds is refused with nothing touched. Otherwise the run is
     traced: whatever it did before it returned, each state it went through kept the view of the first. The number it
     returns is that of the chunks it meant to forget, which is the number of locators gone exactly if all were located.
     */
    method Sweep(grace: Time, held: set<InodeID>, pending: set<ChunkID>, batchDelete: int, failed: set<Key>)
      returns (ok: bool, collected: nat, ghost r: Run, ghost removed: set<ChunkID>)
      requires DiskOK(disk)
      modifies this
      ensures grace <= 3_630_500_000_000 ==> !ok && collected == 0 && disk == old(disk)
      ensures grace > 3_630_500_000_000 ==> Valid(r) && Starts(sum, r, old(disk), grace, held, pending) && lag <= clock - r.since
      ensures grace > Grace.MIN_GRACE ==> Seals(old(disk).st, disk.st, r.since) && SealedBy(old(disk).st, disk.st, clock)
      ensures grace > Grace.MIN_GRACE ==> old(clock) <= r.since <= clock
      ensures grace > Grace.MIN_GRACE && failed == {} && Sound(r.env, sum, old(disk)) ==> ok
      ensures grace > Grace.MIN_GRACE && !Markable(r.env, old(disk)) ==> collected == 0 && disk == old(disk)
      ensures ok <==> grace > Grace.MIN_GRACE && Markable(r.env, old(disk)) && Finishes(r.env, sum, old(disk), failed)
      ensures collected == |removed| && disk.st.locators.Keys == old(disk).st.locators.Keys - removed
      ensures forall c :: c in removed ==> Collects(r.env, old(disk), c)
      ensures ok || (grace > Grace.MIN_GRACE && r.sound) ==> forall c :: c in removed <==> Collects(r.env, old(disk), c)
      ensures CountsGone(collected, old(disk), disk) <==> removed <= old(disk).st.locators.Keys
      ensures ok ==> (CountsGone(collected, old(disk), disk) <==> SweptLocated(r.env, old(disk)))
      ensures Deletes(old(disk).st, disk.st, r.env.cutoff, failed)
      ensures ok ==> grace > Grace.MIN_GRACE && Clean(r.env, disk) && AllSettled(disk.st, 1, 2)
      ensures ok ==> Tidied(Without(old(disk), removed).st, disk.st, r.env.cutoff)
      ensures ok ==> forall k :: k in disk.st.dead ==> disk.st.dead[k] > r.env.cutoff
    {
      hide Deletes, TreeShape.Tree, Accounting.Balanced, ViewOf, Collects, SweptLocated, CountsGone, Clean, AllSettled, Tidied, Markable, Finishes, Seals;
      ok, collected, removed := false, 0, {};
      CountIff(disk, disk, {});
      forall cutoff ensures Deletes(disk.st, disk.st, cutoff, failed) { DeletesNothing(disk.st, disk.st, cutoff, failed); }
      r := Run(Env(0, {}, {}), disk, ViewOf(Env(0, {}, {}), sum, disk), 0, 0, false, true);
      if grace <= Grace.MIN_GRACE { return; }
      var now := Now();
      var env := Env(now - grace, held, pending);
      r := Run(env, disk, ViewOf(env, sum, disk), grace, now, Sound(env, sum, disk), true);
      log, lag := Begin(Event(disk, now, now)), 0;
      StartFine(sum, r);
      StartSealed(disk.st, clock);
      var live;
      SoundMarkable(env, sum, disk);
      ok, live := MarkLive(env, disk);
      if !ok { return; }
      var gathered;
      ok, gathered := SweepMarked(env, live, batchDelete, failed, r);
      collected, removed := |gathered|, gathered;
      CountIff(old(disk), disk, removed);
      if ok {
        CollectsLocated(env, old(disk), removed);
      }
    }

    /**
     Sweep with other clients committing once it has its marks: `later` is the disk they leave, before the graveyard is
     gone through or after, when it holds no entry past grace. A chunk located there, new or taken up from before, is
     located at the end exactly if it was live when the marks were made, or is on `later` neither a chunk of an entry past
     grace nor in an old container. A file that reads there reads the same at the end exactly if that holds of its chunks.
     */
    method SweepDuring(grace: Time, held: set<InodeID>, pending: set<ChunkID>, later: Disk, batchDelete: int, failed: set<Key>)
      returns (ok: bool, ghost env: Env, ghost removed: set<ChunkID>)
      requires DiskOK(disk) && DiskOK(later)
      modifies this
      ensures DiskOK(disk) && env.held == held && env.pending == pending && old(clock) - grace <= env.cutoff <= clock - grace
      ensures grace > Grace.MIN_GRACE && failed == {} && Markable(env, old(disk)) && Sound(env, sum, later) ==> ok
      ensures Standing(env, later, disk) && disk.st.locators.Keys == later.st.locators.Keys - removed
      ensures ok ==> forall c :: c in disk.st.locators <==> c in later.st.locators && !Races(env, old(disk), later, c)
      ensures ok ==> forall c :: ReadContent(sum, later.st, c).Some? ==>
                                   (ReadContent(sum, disk.st, c) == ReadContent(sum, later.st, c) <==> SparedBy(env, old(disk), later, c))
    {
      hide TreeShape.Tree, Accounting.Balanced, Forgets, Sound, Markable, Spared, SparedBy, Races, ReadContent, DiskOK, Standing;
      ok, removed := false, {};
      ghost var d0 := disk;
      var now := Now();
      var env' := Env(now - grace, held, pending);
      env := env';
      var marked, live := false, {};
      if grace > Grace.MIN_GRACE {
        marked, live := MarkLive(env', disk);
      }
      disk := later;
      StandingStart(env, later);
      if !marked { return; }
      var gathered;
      ok, gathered := SweepStale(env', live, grace, batchDelete, failed);
      removed := gathered;
      if ok {
        ForgetsIsRaces(env, d0, later, live);
        forall c | ReadContent(sum, later.st, c).Some?
          ensures ReadContent(sum, disk.st, c) == ReadContent(sum, later.st, c) <==> SparedBy(env, d0, later, c)
        {
          SparedIs(env, d0, later, live, removed, c);
        }
      }
    }
  }

  /** A run may be found in the disk it starts on. */
  lemma StartFine(sum: Bytes -> Digest, r: Run)
    requires DiskOK(r.start) && r.view == ViewOf(r.env, sum, r.start) && (r.sound ==> Sound(r.env, sum, r.start))
    ensures Fine(sum, r, r.start)
  {
  }

  lemma SealedByMore(st: Store, st': Store, latest: Time, later: Time)
    requires SealedBy(st, st', latest) && latest <= later
    ensures SealedBy(st, st', later)
  {
  }

  lemma StartSealed(st: Store, clock: Time)
    ensures SealedBy(st, st, clock)
  {
  }

  lemma PendingKept(env: Env, d: Disk, c: ChunkID)
    requires c in d.st.locators && c in env.pending
    ensures Keeps(env, d, c)
  {
  }

  lemma TracedBegin(sum: Bytes -> Digest, r: Run, log: Log)
    requires log.Begin? && Fine(sum, r, log.last.disk) && log.last.disk == r.start && r.since <= log.last.now
    ensures Traced(sum, r, log) && Prompt(log, 0)
  {
  }

  lemma ViewManifests(env: Env, sum: Bytes -> Digest, d: Disk, d': Disk)
    requires ViewOf(env, sum, d') == ViewOf(env, sum, d)
    ensures d'.st.manifests == d.st.manifests
  {
  }

  lemma SoundMarkable(env: Env, sum: Bytes -> Digest, d: Disk)
    ensures Sound(env, sum, d) ==> Markable(env, d)
  {
  }

  /** If an entry's record is still there, the chunks it refers to can be told. */
  ghost predicate Sweepable(d: Disk, id: InodeID) {
    id in d.ns.inode ==> ChunkIDs(d.st, d.ns.inode[id].content).Some?
  }

  ghost predicate AllSweepable(env: Env, d: Disk, graves: set<Grave>) {
    forall g :: g in graves && Expired(env, g) ==> Sweepable(d, g.id)
  }

  lemma SweepableSame(d0: Disk, d: Disk, removed: set<ChunkID>, todo: set<Grave>, g: Grave)
    requires RecordsKept(d0, d, todo) && g in todo && d.st == Without(d0, removed).st
    ensures Sweepable(d, g.id) <==> Sweepable(d0, g.id)
  {
  }

  /** The located chunks a sweep forgets. */
  ghost function Doomed(env: Env, d: Disk): set<ChunkID> {
    set c | c in d.st.locators && Collects(env, d, c)
  }

  /**
   What the phases after the mark need: of every entry past grace the manifest, of every container that is less than half
   located once the garbage is forgotten each chunk left in it, and of every container that is due its deletion.
   */
  ghost predicate Finishes(env: Env, sum: Bytes -> Digest, d: Disk, failed: set<Key>) {
    && AllSweepable(env, d, d.ns.graves) && AllLegible(sum, Without(d, Doomed(env, d)).st, 1, 2)
    && DueSet(d.st.dead, env.cutoff) !! failed
  }

  lemma CollectedAll(env: Env, d: Disk, removed: set<ChunkID>)
    requires forall c :: c in removed <==> Collects(env, d, c)
    ensures Without(d, removed) == Without(d, Doomed(env, d))
  {
    hide Collects;
    assert d.st.locators - removed == d.st.locators - Doomed(env, d);
  }

  /** A compaction after the cutoff makes nothing due. */
  lemma DueSame(st0: Store, st: Store, at: Time, cutoff: Time)
    requires Retiring(st0, st, {}, 1, 2, at) && at > cutoff
    ensures DueSet(st.dead, cutoff) == DueSet(st0.dead, cutoff)
  {
    hide Wasteful;
    forall k ensures k in DueSet(st.dead, cutoff) <==> k in DueSet(st0.dead, cutoff) {
      assert k in st0.dead ==> k in st.dead;
    }
  }

  /** Every chunk located in the container can be read. */
  ghost predicate Legible(sum: Bytes -> Digest, st: Store, k: Key) {
    forall c :: c in In(st.locators, k) ==> ReadChunk(sum, st, c).Some?
  }

  /** What a compaction has to read can be read. */
  ghost predicate AllLegible(sum: Bytes -> Digest, st: Store, num: nat, den: nat) {
    forall k :: Wasteful(st, k, num, den) ==> Legible(sum, st, k)
  }

  lemma WastefulListed(st: Store, num: nat, den: nat)
    ensures forall k :: Wasteful(st, k, num, den) ==> k in st.objects
  {
  }

  /** A container still to do reads as at the start. */
  lemma LegibleSame(sum: Bytes -> Digest, st0: Store, st: Store, todo: set<Key>, num: nat, den: nat, k: Key, entries: set<ChunkID>)
    requires Compacting(st0, st, todo, num, den) && k in todo && entries == In(st0.locators, k).Keys
    ensures Legible(sum, st0, k) <==> forall c :: c in entries ==> ReadChunk(sum, st, c).Some?
  {
    hide Settled;
    forall c | c in entries ensures ReadChunk(sum, st, c) == ReadChunk(sum, st0, c) {
      assert c in In(st.locators, k) && In(st.locators, k)[c] == In(st0.locators, k)[c];
    }
  }

  lemma PackedReads(sum: Bytes -> Digest, st: Store, entries: set<ChunkID>, data: Bytes, locs: Locators)
    requires Packed(sum, st, entries, st.nextKey, data, locs)
    ensures forall c :: c in entries ==> ReadChunk(sum, st, c).Some?
  {
  }

  /** None of the content's chunks is among these. */
  ghost predicate Spared(st: Store, c: Content, removed: set<ChunkID>) {
    ChunkIDs(st, c).Some? ==> forall i :: 0 <= i < |ChunkIDs(st, c).value| ==> ChunkIDs(st, c).value[i] !in removed
  }

  /** Content reads the same without some locators exactly if it needs none of them. */
  lemma SparedReads(sum: Bytes -> Digest, d0: Disk, d1: Disk, d2: Disk, removed: set<ChunkID>, c: Content)
    requires ReadContent(sum, d0.st, c).Some? && d1.st == Without(d0, removed).st && d2.st.manifests == d1.st.manifests
    requires d2.st.locators.Keys == d1.st.locators.Keys
    requires forall x :: x in d2.st.locators && ReadChunk(sum, d1.st, x).Some? ==> ReadChunk(sum, d2.st, x) == ReadChunk(sum, d1.st, x)
    ensures ReadContent(sum, d2.st, c) == ReadContent(sum, d0.st, c) <==> Spared(d0.st, c, removed)
  {
    var ids := ChunkIDs(d0.st, c).value;
    if Spared(d0.st, c, removed) {
      forall i | 0 <= i < |ids| ensures ReadChunk(sum, d2.st, ids[i]) == ReadChunk(sum, d0.st, ids[i]) {
        NeededReads(sum, d0.st, c, i);
        assert ReadChunk(sum, d1.st, ids[i]) == ReadChunk(sum, d0.st, ids[i]);
      }
      ReadContentAgrees(sum, d0.st, d2.st, c);
    } else {
      var i :| 0 <= i < |ids| && ids[i] in removed;
      if ReadContent(sum, d2.st, c).Some? {
        NeededReads(sum, d2.st, c, i);
      }
    }
  }

  /** The run's measure is taken from the disk it starts on: cutoff, view and soundness. */
  ghost predicate Starts(sum: Bytes -> Digest, r: Run, d: Disk, grace: Time, held: set<InodeID>, pending: set<ChunkID>) {
    && r.start == d && r.grace == grace && r.env == Env(r.since - grace, held, pending)
    && r.view == ViewOf(r.env, sum, d) && (r.sound <==> Sound(r.env, sum, d)) && r.marked
  }

  /** With every located chunk marked, the view keeps them all. */
  lemma AllPending(env: Env, sum: Bytes -> Digest, d: Disk)
    requires env.pending == d.st.locators.Keys
    ensures d.st.locators.Keys == ViewOf(env, sum, d).chunks
  {
    assert forall c :: c in d.st.locators ==> IsLive(env, d, c);
  }

  lemma AllKept(env: Env, sum: Bytes -> Digest, d: Disk, r: Run)
    requires Fine(sum, r, d) && r.env == env && r.marked && d.st.locators.Keys == r.view.chunks
    requires forall g :: g in d.ns.graves ==> !Expired(env, g)
    ensures Clean(env, d)
  {
    forall c | c in d.st.locators ensures Keeps(env, d, c) {
      StillViewed(env, sum, d, c, r.view);
    }
  }

  /**
   What compacting at one half and then reaping leaves of a store: the containers less than half located were retired
   at one moment after the cutoff and their chunks moved, and those retired by the cutoff are gone with their entries.
   */
  ghost predicate Tidied(st: Store, st': Store, cutoff: Time) {
    exists mid: Store, at: Time ::
      && at > cutoff && Retiring(st, mid, {}, 1, 2, at)
      && st' == mid.(objects := mid.objects - DueSet(st.dead, cutoff), dead := mid.dead - DueSet(st.dead, cutoff))
  }

  /**
   However it ended: a container's object is gone only if the container had been retired by the cutoff and its deletion did
   not fail, and its entry on the dead list only once the object is. Entries that are left keep their times.
   */
  ghost predicate Deletes(st: Store, st': Store, cutoff: Time, failed: set<Key>) {
    && (forall k :: k in st.objects && k !in st'.objects ==> k in st.dead && st.dead[k] <= cutoff && k !in failed)
    && (forall k :: k in st.objects && k in st'.objects ==> st'.objects[k] == st.objects[k])
    && (forall k :: k in st.dead ==> if k in st'.dead then st'.dead[k] == st.dead[k]
                                     else st.dead[k] <= cutoff && k !in failed && k !in st'.objects)
  }

  lemma DeletesNothing(st: Store, st': Store, cutoff: Time, failed: set<Key>)
    requires st'.objects == st.objects && st'.dead == st.dead
    ensures Deletes(st, st', cutoff, failed)
  {
  }

  lemma RetiringDeletes(st: Store, st': Store, left: set<Key>, num: nat, den: nat, at: Time, cutoff: Time, failed: set<Key>)
    requires Retiring(st, st', left, num, den, at)
    ensures Deletes(st, st', cutoff, failed)
  {
    hide Wasteful, In;
  }

  lemma ReapedDeletes(st: Store, d: Disk, gone: set<Key>, cleared: set<Key>, left: set<Key>, at: Time, cutoff: Time, failed: set<Key>)
    requires Retiring(st, d.st, left, 1, 2, at) && at > cutoff && cleared <= gone <= DueSet(d.st.dead, cutoff) - failed
    ensures Deletes(st, Reaped(d, gone, cleared).st, cutoff, failed)
  {
    hide Wasteful, In;
  }

  lemma DeletesBetween(st0: Store, st: Store, st': Store, cutoff: Time, failed: set<Key>)
    requires Deletes(st, st', cutoff, failed) && st.objects == st0.objects && st.dead == st0.dead
    ensures Deletes(st0, st', cutoff, failed)
  {
  }

  lemma ReapedTidied(st: Store, d: Disk, d': Disk, cutoff: Time, at: Time)
    requires Retiring(st, d.st, {}, 1, 2, at) && at > cutoff
    requires d' == Reaped(d, DueSet(d.st.dead, cutoff), DueSet(d.st.dead, cutoff))
    ensures Tidied(st, d'.st, cutoff)
  {
    forall k ensures k in DueSet(d.st.dead, cutoff) <==> k in DueSet(st.dead, cutoff) {
    }
    assert DueSet(d.st.dead, cutoff) == DueSet(st.dead, cutoff);
  }

  /** Taking retired objects and their entries away together settles nothing less. */
  lemma ReapedSettled(d: Disk, gone: set<Key>, num: nat, den: nat)
    requires AllSettled(d.st, num, den)
    ensures AllSettled(Reaped(d, gone, gone).st, num, den)
  {
    forall k: Key ensures Settled(Reaped(d, gone, gone).st, k, num, den) {
      assert Settled(d.st, k, num, den);
    }
  }

  ghost predicate Distinct<T>(s: seq<T>) {
    forall i, j :: 0 <= i < j < |s| ==> s[i] != s[j]
  }

  lemma RangeOf<T>(s: seq<T>, i: nat, j: nat)
    requires i <= j <= |s| && Distinct(s)
    ensures SetOf(s[..j]) == SetOf(s[..i]) + SetOf(s[i..j]) && SetOf(s[..i]) !! SetOf(s[i..j]) && SetOf(s[i..j]) <= SetOf(s)
  {
    assert s[..j] == s[..i] + s[i..j];
  }

  ghost function DueSet(dead: map<Key, Time>, cutoff: Time): set<Key> {
    set k | k in dead && dead[k] <= cutoff
  }

  /** The disk without some container objects and without some entries of the dead list. */
  function Reaped(d: Disk, gone: set<Key>, cleared: set<Key>): Disk {
    d.(st := d.st.(objects := d.st.objects - gone, dead := d.st.dead - cleared))
  }

  lemma ReapedNone(d: Disk)
    ensures Reaped(d, {}, {}) == d
  {
    assert d.st.objects - {} == d.st.objects && d.st.dead - {} == d.st.dead;
  }

  lemma ReapedTwice(d: Disk, gone: set<Key>, cleared: set<Key>, gone': set<Key>, cleared': set<Key>)
    ensures Reaped(Reaped(d, gone, cleared), gone', cleared') == Reaped(d, gone + gone', cleared + cleared')
  {
    assert d.st.objects - gone - gone' == d.st.objects - (gone + gone');
    assert d.st.dead - cleared - cleared' == d.st.dead - (cleared + cleared');
  }

  lemma ReapedNext(d: Disk, gone: set<Key>, cleared: set<Key>, k: Key)
    ensures DropObject(Reaped(d, gone, cleared), k) == Reaped(d, gone + {k}, cleared)
    ensures UnmarkDead(Reaped(d, gone, cleared), k) == Reaped(d, gone, cleared + {k})
  {
    assert d.st.objects - gone - {k} == d.st.objects - (gone + {k});
    assert d.st.dead - cleared - {k} == d.st.dead - (cleared + {k});
  }

  /** What Compact's tally says of a container; one with no locators is not in it. */
  function TallyOf(ghost m: Locators, tally: map<Key, Tally>, k: Key): (t: Tally)
    requires Tallied(m, tally)
    ensures t == Tally(In(m, k).Keys, LiveBytes(m, k))
  {
    if k in tally then tally[k] else
      assert In(m, k) == map[];
      Tally({}, 0)
  }

  /** Nothing was lost and `n` were gained. */
  ghost predicate Grew<T>(s: set<T>, s': set<T>, n: nat) {
    s <= s' && |s' - s| == n
  }

  lemma FineStore(sum: Bytes -> Digest, r: Run, d: Disk)
    requires Fine(sum, r, d)
    ensures StoreOK(d.st)
  {
  }

  lemma FineKeys(sum: Bytes -> Digest, r: Run, d: Disk)
    requires Fine(sum, r, d)
    ensures StoreOK(d.st) && r.start.st.nextKey <= d.st.nextKey
    ensures d.st.nextKey !in d.st.dead && d.st.nextKey !in d.st.sealed
  {
  }

  lemma FineSealed(sum: Bytes -> Digest, r: Run, d: Disk)
    requires Fine(sum, r, d)
    ensures forall k :: k in r.start.st.sealed ==> k in d.st.sealed
  {
  }

  lemma SealsSooner(st: Store, st': Store, since: Time, sooner: Time)
    requires Seals(st, st', since) && sooner <= since
    ensures Seals(st, st', sooner)
  {
  }

  lemma SealedByLater(st0: Store, st: Store, st': Store, latest: Time)
    requires SealedBy(st0, st', latest) && forall k :: k in st0.sealed ==> k in st.sealed
    ensures SealedBy(st, st', latest)
  {
  }

  lemma FineReads(sum: Bytes -> Digest, r: Run, d: Disk)
    requires Fine(sum, r, d)
    ensures r.sound ==> forall c :: c in d.st.locators ==> ReadChunk(sum, d.st, c).Some?
  {
  }

  lemma FineDrawn(sum: Bytes -> Digest, r: Run, d: Disk)
    requires Fine(sum, r, d)
    ensures KeysDrawn(d.st)
  {
  }

  lemma GrewNone<T>(s: set<T>)
    ensures Grew(s, s, 0)
  {
    assert s - s == {};
  }

  /** A container was rewritten and recorded as dead since `at`. */
  ghost predicate Retired(d: Disk, d': Disk, k: Key, at: Time) {
    && d'.ns == d.ns && d'.st.dead == d.st.dead[k := at] && KeysDrawn(d'.st)
    && Rewritten(d.st, d'.st.(dead := d.st.dead), k)
  }

  lemma RetiredAdvances(st0: Store, d: Disk, d': Disk, todo: set<Key>, k: Key, at: Time, num: nat, den: nat)
    requires Compacting(st0, d.st, todo, num, den) && k in todo && k !in d.st.dead && Retired(d, d', k, at)
    ensures Compacting(st0, d'.st, todo - {k}, num, den)
  {
    var st := d'.st.(dead := d.st.dead);
    RewrittenAdvances(st0, d.st, st, todo, k, at, num, den);
    assert st.(dead := st.dead[k := at]) == d'.st;
  }

  lemma RetiredNotWasteful(st: Store, k: Key, num: nat, den: nat)
    ensures k in st.dead ==> !Wasteful(st, k, num, den)
  {
  }

  lemma RetiredRetires(st0: Store, d: Disk, d': Disk, todo: set<Key>, k: Key, at: Time, num: nat, den: nat)
    requires Retiring(st0, d.st, todo, num, den, at) && KeysDrawn(st0) && StoreOK(d.st) && k in todo && Wasteful(st0, k, num, den)
    requires Retired(d, d', k, at)
    ensures Retiring(st0, d'.st, todo - {k}, num, den, at)
  {
    hide Retiring, Rewritten;
    var st := d'.st.(dead := d.st.dead);
    assert k < st0.nextKey by {
      assert k in st0.objects;
    }
    RetiringNext(st0, d.st, st, todo, num, den, at, k);
    RewrittenDead(d.st, st, k);
    assert st.(dead := st.dead[k := at]) == d'.st;
  }

  lemma RewrittenDead(st: Store, st': Store, k: Key)
    requires Rewritten(st, st', k)
    ensures st'.dead == st.dead
  {
  }

  lemma RetiredCount(st0: Store, st: Store, num: nat, den: nat, at: Time, n: nat)
    requires Retiring(st0, st, {}, num, den, at) && Grew(st0.dead.Keys, st.dead.Keys, n)
    ensures n == |set k | k in st0.objects && Wasteful(st0, k, num, den)|
  {
    var retired := set k | k in st0.objects && Wasteful(st0, k, num, den);
    assert st.dead.Keys - st0.dead.Keys == retired;
  }

  lemma RetiredGrew(dead: set<Key>, d: Disk, d': Disk, k: Key, at: Time, n: nat)
    requires Retired(d, d', k, at) && k !in d.st.dead && Grew(dead, d.st.dead.Keys, n)
    ensures Grew(dead, d'.st.dead.Keys, n + 1)
  {
    assert d'.st.dead.Keys - dead == (d.st.dead.Keys - dead) + {k};
  }

  lemma PackedSome(sum: Bytes -> Digest, st: Store, entries: set<ChunkID>, data: Bytes, locs: Locators)
    requires Packed(sum, st, entries, st.nextKey, data, locs) && entries != {}
    ensures locs != map[]
  {
    var c :| c in entries;
    assert c in locs;
  }

  lemma NothingToRewrite(st: Store, k: Key)
    requires In(st.locators, k).Keys == {}
    ensures Rewritten(st, st, k)
  {
    forall c | c in st.locators ensures st.locators[c].container != k {
      assert c !in In(st.locators, k);
    }
  }

  /** `d` is `d0` with the locators of `done` repointed into a container that counts as young. */
  ghost predicate Moving(env: Env, sum: Bytes -> Digest, d0: Disk, d: Disk, key: Key, locs: Locators, done: set<ChunkID>, since: Time) {
    && Relocatable(sum, d0.st, key, locs) && key !in d0.st.dead && key < d0.st.nextKey
    && d == d0.(st := d0.st.(locators := Overlay(d0.st.locators, locs, done), sealed := d.st.sealed))
    && (if done == {} then d.st.sealed == d0.st.sealed && key !in d0.st.sealed
        else key in d.st.sealed && d.st.sealed[key] >= since && d.st.sealed == d0.st.sealed[key := d.st.sealed[key]])
  }

  lemma PackedSeals(sum: Bytes -> Digest, st: Store, st': Store, entries: set<ChunkID>, data: Bytes, locs: Locators, since: Time, t: Time)
    requires Packed(sum, st, entries, st.nextKey, data, locs) && st'.locators == st.locators + locs && st'.nextKey == st.nextKey + 1
    requires SealedOnly(st.sealed, st'.sealed, st.nextKey, locs, t) && t >= since && st.nextKey !in st.sealed
    ensures Seals(st, st', since)
  {
  }

  /** Of the seal times only that of a container with chunks moved into it is new, from `since` on. */
  ghost predicate SealedOnly(sealed: map<Key, Time>, sealed': map<Key, Time>, key: Key, locs: Locators, since: Time) {
    if locs == map[] then sealed' == sealed
    else key in sealed' && sealed'[key] >= since && sealed' == sealed[key := sealed'[key]]
  }

  ghost predicate Divides<T>(all: set<T>, todo: set<T>, done: set<T>) {
    todo <= all && todo !! done && forall x :: x in all ==> x in todo || x in done
  }

  lemma Smaller<T>(s: set<T>, x: T)
    requires x in s
    ensures |s - {x}| < |s|
  {
  }

  lemma DividesNext<T>(all: set<T>, todo: set<T>, done: set<T>, x: T)
    requires Divides(all, todo, done) && x in todo
    ensures Divides(all, todo - {x}, done + {x}) && |todo - {x}| < |todo|
  {
  }

  lemma MovedAll(env: Env, sum: Bytes -> Digest, d0: Disk, d: Disk, key: Key, locs: Locators, done: set<ChunkID>, since: Time)
    requires Moving(env, sum, d0, d, key, locs, done, since) && locs.Keys == done
    ensures SealedOnly(d0.st.sealed, d.st.sealed, key, locs, since)
    ensures d.ns == d0.ns && d.st == d0.st.(locators := d0.st.locators + locs, sealed := d.st.sealed)
  {
    assert Overlay(d0.st.locators, locs, done) == d0.st.locators + locs;
  }

  lemma MovingNext(env: Env, sum: Bytes -> Digest, d0: Disk, d: Disk, key: Key, locs: Locators, done: set<ChunkID>,
                   c: ChunkID, now: Time, since: Time)
    requires Moving(env, sum, d0, d, key, locs, done, since) && c in locs && c !in done && now >= since > env.cutoff
    ensures Relocates(env, sum, d, c, locs[c], now) && d.st.locators.Keys == d0.st.locators.Keys
    ensures Moving(env, sum, d0, MoveLocator(d, c, locs[c], now), key, locs, done + {c}, since)
  {
    OverlayNext(d0.st.locators, locs, done, c);
    assert ReadChunk(sum, d.st, c) == ReadChunk(sum, d0.st, c);
  }

  /** A located chunk that the view keeps is one the sweep keeps. */
  lemma StillViewed(env: Env, sum: Bytes -> Digest, d: Disk, c: ChunkID, v: View)
    requires ViewOf(env, sum, d) == v && d.st.locators.Keys == v.chunks && c in d.st.locators
    ensures Keeps(env, d, c)
  {
    assert c in ViewOf(env, sum, d).chunks;
  }

  lemma AgedAfter(env: Env, d: Disk, c: ChunkID)
    ensures forall x :: x in d.st.locators && x != c ==> (Aged(env, DropLocator(d, c).st, x) <==> Aged(env, d.st, x))
    ensures DropLocator(d, c).st.locators.Keys == d.st.locators.Keys - {c}
  {
  }

  function SealedAt(sealed: map<Key, Time>, k: Key): Option<Time> {
    if k in sealed then Some(sealed[k]) else None
  }

  ghost predicate Memo(known: map<Key, Option<Time>>, sealed: map<Key, Time>) {
    forall k :: k in known ==> known[k] == SealedAt(sealed, k)
  }

  lemma DisjointNext<T>(s: set<T>, t: set<T>, x: T)
    requires s !! t && x !in t
    ensures s + {x} !! t
  {
  }

  // --- which chunks a sweep forgets ------------------------------------------------------

  /** A sweep of this disk means to forget the chunk, whether it is located or not. */
  ghost predicate Collects(env: Env, d: Disk, c: ChunkID) {
    !IsLive(env, d, c) && (Swept(env, d, c) || Aged(env, d.st, c))
  }

  /** The same, going by marks that need not be this disk's. */
  ghost predicate Forgets(env: Env, d: Disk, live: set<ChunkID>, c: ChunkID) {
    c !in live && (Swept(env, d, c) || Aged(env, d.st, c))
  }

  lemma MarkedCollects(env: Env, d: Disk, live: set<ChunkID>)
    requires Marks(env, d, live)
    ensures forall c :: Forgets(env, d, live, c) <==> Collects(env, d, c)
  {
  }

  /** Marked on one disk and swept on another: the chunk is lost. */
  ghost predicate Races(env: Env, d: Disk, later: Disk, c: ChunkID) {
    !IsLive(env, d, c) && (Swept(env, later, c) || Aged(env, later.st, c))
  }

  /** No chunk of the content is lost. */
  ghost predicate SparedBy(env: Env, d: Disk, later: Disk, c: Content) {
    ChunkIDs(later.st, c).Some? ==>
      forall i :: 0 <= i < |ChunkIDs(later.st, c).value| ==> !Races(env, d, later, ChunkIDs(later.st, c).value[i])
  }

  lemma ForgetsIsRaces(env: Env, d: Disk, later: Disk, live: set<ChunkID>)
    requires Marks(env, d, live)
    ensures forall c :: Forgets(env, later, live, c) <==> Races(env, d, later, c)
  {
  }

  lemma SparedIs(env: Env, d: Disk, later: Disk, live: set<ChunkID>, removed: set<ChunkID>, c: Content)
    requires forall x :: x in removed <==> Forgets(env, later, live, x)
    requires forall x :: Forgets(env, later, live, x) <==> Races(env, d, later, x)
    ensures Spared(later.st, c, removed) <==> SparedBy(env, d, later, c)
  {
    hide Races, Forgets;
  }

  ghost predicate MarksIf(r: Run, d: Disk, live: set<ChunkID>) {
    r.marked ==> Marks(r.env, d, live)
  }

  lemma MarksIfKept(sum: Bytes -> Digest, r: Run, d: Disk, d': Disk, live: set<ChunkID>)
    requires Fine(sum, r, d) && Fine(sum, r, d') && MarksIf(r, d, live)
    ensures MarksIf(r, d', live)
  {
    if r.marked {
      MarksKept(r.env, sum, d, d', live);
    }
  }

  /** Every unmarked chunk of an entry past grace still has its locator. */
  ghost predicate SweptLocated(env: Env, d: Disk) {
    forall c :: Swept(env, d, c) && !IsLive(env, d, c) ==> c in d.st.locators
  }

  /** The unmarked chunks of the expired ones among some graves. */
  ghost predicate Gathers(env: Env, d: Disk, graves: set<Grave>, live: set<ChunkID>, removed: set<ChunkID>) {
    forall c :: c in removed <==> c !in live && exists g :: g in graves && Expired(env, g) && Needs(d, g.id, c)
  }

  lemma GathersNone(env: Env, d: Disk, live: set<ChunkID>)
    ensures Gathers(env, d, {}, live, {}) && RecordsKept(d, d, d.ns.graves)
  {
  }

  lemma GathersSkip(env: Env, d: Disk, done: set<Grave>, g: Grave, live: set<ChunkID>, removed: set<ChunkID>)
    requires Gathers(env, d, done, live, removed) && !Expired(env, g)
    ensures Gathers(env, d, done + {g}, live, removed)
  {
  }

  /** Names, and the records of inodes with no entry past grace, are as they were. */
  ghost predicate Standing(env: Env, d: Disk, d': Disk) {
    d'.ns.dentry == d.ns.dentry && forall id :: Stays(env, d.ns, id) ==> id in d'.ns.inode && d'.ns.inode[id] == d.ns.inode[id]
  }

  lemma StandingStart(env: Env, d: Disk)
    ensures Standing(env, d, d)
  {
  }

  lemma StandingNext(env: Env, d0: Disk, d: Disk, d': Disk, g: Grave)
    requires Standing(env, d0, d) && g in d0.ns.graves && Expired(env, g)
    requires d'.ns.dentry == d.ns.dentry && d'.ns.inode == d.ns.inode - {g.id}
    ensures Standing(env, d0, d')
  {
    assert !Stays(env, d0.ns, g.id);
  }

  lemma StandingSame(env: Env, d0: Disk, d: Disk, d': Disk)
    requires Standing(env, d0, d) && d'.ns == d.ns
    ensures Standing(env, d0, d')
  {
  }

  /** The records of the entries still to come are the first disk's. */
  ghost predicate RecordsKept(d0: Disk, d: Disk, todo: set<Grave>) {
    forall g :: g in todo ==>
                  && (g.id in d.ns.inode <==> g.id in d0.ns.inode)
                  && (g.id in d.ns.inode ==> d.ns.inode[g.id] == d0.ns.inode[g.id])
  }

  lemma RecordsKeptNext(d0: Disk, d: Disk, d': Disk, todo: set<Grave>, g: Grave)
    requires RecordsKept(d0, d, todo) && Inv(d.ns) && todo <= d.ns.graves && g in todo
    requires d'.ns.inode == d.ns.inode - {g.id}
    ensures RecordsKept(d0, d', todo - {g})
  {
    assert Accounting.BuriedOnce(d.ns.graves);
  }

  lemma RecordsKeptSkip(d0: Disk, d: Disk, todo: set<Grave>, g: Grave)
    requires RecordsKept(d0, d, todo)
    ensures RecordsKept(d0, d, todo - {g})
  {
  }

  lemma GathersNext(env: Env, d0: Disk, done: set<Grave>, g: Grave, live: set<ChunkID>, removed: set<ChunkID>, d: Disk,
                    todo: set<Grave>, removed': set<ChunkID>)
    requires Gathers(env, d0, done, live, removed) && RecordsKept(d0, d, todo) && g in todo && Expired(env, g)
    requires d.st.manifests == d0.st.manifests
    requires forall c :: c in removed' <==> c in removed || (c !in live && Needs(d, g.id, c))
    ensures Gathers(env, d0, done + {g}, live, removed')
  {
    forall c ensures Needs(d, g.id, c) <==> Needs(d0, g.id, c) {
      if g.id in d.ns.inode {
        NeedsSame(d0, d, g.id, c);
      }
    }
  }

  lemma GathersForgets(env: Env, d: Disk, done: set<Grave>, live: set<ChunkID>, removed: set<ChunkID>)
    requires Gathers(env, d, done, live, removed) && done <= d.ns.graves
    ensures forall c :: c in removed ==> Forgets(env, d, live, c)
  {
  }

  /** Some chunks, and the unmarked aged ones among those looked at. */
  ghost predicate Ages(env: Env, st: Store, live: set<ChunkID>, removed0: set<ChunkID>, todo: set<ChunkID>, removed: set<ChunkID>) {
    forall c :: c in removed <==> c in removed0 || (c !in live && c !in todo && Aged(env, st, c))
  }

  lemma AgesNone(env: Env, st: Store, live: set<ChunkID>, removed0: set<ChunkID>)
    ensures Ages(env, st, live, removed0, st.locators.Keys, removed0)
  {
  }

  lemma AgesNext(env: Env, d: Disk, live: set<ChunkID>, removed0: set<ChunkID>, todo: set<ChunkID>, removed: set<ChunkID>,
                 c: ChunkID, removed': set<ChunkID>)
    requires Ages(env, d.st, live, removed0, todo, removed) && c in todo && c in Without(d, removed).st.locators
    requires removed' == if c !in live && Aged(env, Without(d, removed).st, c) then removed + {c} else removed
    ensures Ages(env, d.st, live, removed0, todo - {c}, removed')
  {
    assert Aged(env, Without(d, removed).st, c) <==> Aged(env, d.st, c);
  }

  /** The two phases together forget what the first disk says. */
  lemma AgesForgets(env: Env, d0: Disk, d1: Disk, live: set<ChunkID>, swept: set<ChunkID>, removed: set<ChunkID>)
    requires Gathers(env, d0, d0.ns.graves, live, swept) && d1.st == Without(d0, swept).st
    requires Ages(env, d1.st, live, swept, {}, removed)
    ensures forall c :: c in removed <==> Forgets(env, d0, live, c)
  {
    forall c ensures c in removed <==> Forgets(env, d0, live, c) {
      assert c in swept <==> c !in live && Swept(env, d0, c);
      assert c !in swept ==> (Aged(env, d1.st, c) <==> Aged(env, d0.st, c));
    }
  }

  /** The number of locators gone. */
  ghost predicate CountsGone(n: nat, d: Disk, d': Disk) {
    n == |d.st.locators.Keys - d'.st.locators.Keys|
  }

  /** Counting what was asked for agrees with counting what went exactly if all of it was there. */
  lemma CountIff(d: Disk, d': Disk, removed: set<ChunkID>)
    requires d'.st.locators.Keys == d.st.locators.Keys - removed
    ensures CountsGone(|removed|, d, d') <==> removed <= d.st.locators.Keys
  {
    CountSets(d.st.locators.Keys, d'.st.locators.Keys, removed);
  }

  lemma CountSets<T>(s: set<T>, s': set<T>, removed: set<T>)
    requires s' == s - removed
    ensures |removed| == |s - s'| <==> removed <= s
  {
    var gone, missing := removed * s, removed - s;
    assert s - s' == gone;
    CardSplit(removed, gone, missing);
    if missing == {} {
      assert removed <= s;
    } else {
      var x :| x in missing;
      assert x in removed && x !in s;
    }
  }

  lemma CardSplit<T>(s: set<T>, a: set<T>, b: set<T>)
    requires s == a + b && a !! b
    ensures |s| == |a| + |b|
  {
  }

  lemma CollectsLocated(env: Env, d: Disk, removed: set<ChunkID>)
    requires forall c :: c in removed <==> Collects(env, d, c)
    ensures removed <= d.st.locators.Keys <==> SweptLocated(env, d)
  {
  }

  /** With no expired graves, unmarked chunks that are not aged are all kept. */
  lemma OnlyKept(env: Env, sum: Bytes -> Digest, d: Disk, live: set<ChunkID>)
    requires Marks(env, d, live) && forall g :: g in d.ns.graves ==> !Expired(env, g)
    requires forall c :: c in d.st.locators ==> c in live || !Aged(env, d.st, c)
    ensures d.st.locators.Keys == ViewOf(env, sum, d).chunks
  {
    forall c | c in d.st.locators ensures Keeps(env, d, c) {
      assert !Swept(env, d, c);
    }
  }

  lemma WithoutMore(d: Disk, d1: Disk, removed: set<ChunkID>, removed': set<ChunkID>)
    requires d1.st == Without(d, removed).st && removed <= removed'
    ensures Without(d1, removed').st == Without(d, removed').st
  {
    assert d.st.locators - removed - removed' == d.st.locators - removed';
  }

  /** The disk without the locators of some chunks. */
  function Without(d: Disk, removed: set<ChunkID>): Disk {
    d.(st := d.st.(locators := d.st.locators - removed))
  }

  lemma WithoutAbsent(d: Disk, removed: set<ChunkID>)
    requires removed !! d.st.locators.Keys
    ensures Without(d, removed) == d
  {
    assert d.st.locators - removed == d.st.locators;
  }

  lemma WithoutNext(d: Disk, removed: set<ChunkID>, c: ChunkID)
    ensures DropLocator(Without(d, removed), c) == Without(d, removed + {c})
  {
    assert d.st.locators - removed - {c} == d.st.locators - (removed + {c});
  }

  function SetOf<T>(s: seq<T>): set<T> {
    set x | x in s
  }

  lemma SetOfNone<T>()
    ensures SetOf<T>([]) == {}
  {
  }

  lemma {:induction false} SetOfSmall<T>(s: seq<T>)
    ensures |SetOf(s)| <= |s|
  {
    if s != [] {
      SetOfNext(s, |s| - 1);
      SetOfSmall(s[..|s| - 1]);
      assert s[..|s|] == s;
    }
  }

  /** What a batch deletes and does not forget is less than the batch: all of it if none failed. */
  lemma LeftInBatch(keys: seq<Key>, failed: set<Key>)
    ensures forall cleared: set<Key> :: (SetOf(keys) !! failed ==> SetOf(keys) <= cleared) && keys != [] ==> |SetOf(keys) - failed - cleared| < |keys|
  {
    SetOfSmall(keys);
    forall cleared: set<Key> | (SetOf(keys) !! failed ==> SetOf(keys) <= cleared) && keys != []
      ensures |SetOf(keys) - failed - cleared| < |keys|
    {
      var rest := SetOf(keys) - failed - cleared;
      if SetOf(keys) !! failed {
        assert rest == {};
      } else {
        var k :| k in SetOf(keys) && k in failed;
        Fewer(rest, SetOf(keys) - {k});
      }
    }
  }

  lemma BatchDue(d: Disk, done: set<Key>, keys: seq<Key>, cutoff: Time)
    requires done !! SetOf(keys) && SetOf(keys) <= DueSet(d.st.dead, cutoff)
    ensures forall k :: k in keys ==> k in Reaped(d, done, done).st.dead && Reaped(d, done, done).st.dead[k] <= cutoff
  {
    forall k | k in keys ensures k in Reaped(d, done, done).st.dead && Reaped(d, done, done).st.dead[k] <= cutoff {
      assert k in SetOf(keys);
    }
  }

  lemma RangeReaped(keys: seq<Key>, start: nat, end: nat, failed: set<Key>, gone: set<Key>, cleared: set<Key>, ok: bool)
    requires start < end <= |keys| && SetOf(keys[..start]) !! failed && cleared <= gone == SetOf(keys[start..end]) - failed
    requires ok <==> SetOf(keys[start..end]) !! failed
    requires ok ==> gone == cleared == SetOf(keys[start..end])
    requires |gone - cleared| < end - start
    ensures var done := SetOf(keys[..start]);
            && done + cleared <= done + gone <= SetOf(keys) - failed
            && (ok <==> SetOf(keys[..end]) !! failed) && (ok ==> done + gone == done + cleared == SetOf(keys[..end]))
            && |(done + gone) - (done + cleared)| < end - start
  {
    hide SetOf;
    var done := SetOf(keys[..start]);
    JoinOf(keys, start, end);
    LeftAfter(done, gone, cleared);
    assert gone <= SetOf(keys);
  }

  lemma JoinOf<T>(s: seq<T>, i: nat, j: nat)
    requires i <= j <= |s|
    ensures SetOf(s[..j]) == SetOf(s[..i]) + SetOf(s[i..j]) && SetOf(s[..j]) <= SetOf(s)
  {
    assert s[..j] == s[..i] + s[i..j];
  }

  lemma LeftAfter(done: set<Key>, gone: set<Key>, cleared: set<Key>)
    ensures |(done + gone) - (done + cleared)| <= |gone - cleared|
  {
    Fewer((done + gone) - (done + cleared), gone - cleared);
  }

  lemma {:induction false} Fewer<T>(a: set<T>, b: set<T>)
    requires a <= b
    ensures |a| <= |b|
    decreases |a|
  {
    if a != {} {
      var x :| x in a;
      Fewer(a - {x}, b - {x});
    }
  }

  lemma SetOfNext<T>(s: seq<T>, i: nat)
    requires i < |s|
    ensures SetOf(s[..i + 1]) == SetOf(s[..i]) + {s[i]}
  {
    assert s[..i + 1] == s[..i] + [s[i]];
  }

  lemma SetOfAll<T>(s: seq<T>)
    ensures SetOf(s[..|s|]) == SetOf(s)
  {
    assert s[..|s|] == s;
  }

  lemma WithoutNeeds(d: Disk, removed: set<ChunkID>, id: InodeID, c: ChunkID)
    requires id in d.ns.inode
    ensures Needs(Without(d, removed), id, c) <==> Needs(d, id, c)
  {
    NeedsSame(d, Without(d, removed), id, c);
  }

  /** A chunk of an expired entry that was not marked may lose its locator. */
  lemma MayDrop(env: Env, sum: Bytes -> Digest, d: Disk, removed: set<ChunkID>, g: Grave, c: ChunkID, live: set<ChunkID>)
    requires Inv(d.ns) && ViewOf(env, sum, Without(d, removed)) == ViewOf(env, sum, d) && Marks(env, d, live)
    requires g in d.ns.graves && Expired(env, g) && Needs(d, g.id, c) && c !in live
    ensures !IsLive(env, Without(d, removed), c) && Swept(env, Without(d, removed), c)
  {
    MarksKept(env, sum, d, Without(d, removed), live);
    WithoutNeeds(d, removed, g.id, c);
  }

  lemma DroppedAll(env: Env, sum: Bytes -> Digest, d: Disk, removed: set<ChunkID>, g: Grave, live: set<ChunkID>)
    requires Inv(d.ns) && ViewOf(env, sum, Without(d, removed)) == ViewOf(env, sum, d) && Marks(env, d, live)
    requires g in d.ns.graves && Expired(env, g) && g.id in d.ns.inode
    requires forall c :: Needs(d, g.id, c) ==> c in live || c in removed
    ensures Emptied(env, Without(d, removed), g)
  {
    MarksKept(env, sum, d, Without(d, removed), live);
    forall c | Needs(Without(d, removed), g.id, c)
      ensures IsLive(env, Without(d, removed), c) || c !in Without(d, removed).st.locators
    {
      WithoutNeeds(d, removed, g.id, c);
    }
  }

  // --- soundness is kept by each write ---------------------------------------------------

  /** Sound depends on the namespace, the manifests and how located chunks read. */
  lemma StoreOnlySound(env: Env, sum: Bytes -> Digest, d: Disk, d': Disk)
    requires d'.ns == d.ns && d'.st.manifests == d.st.manifests && Sound(env, sum, d)
    requires forall c :: c in d'.st.locators ==> c in d.st.locators && ReadChunk(sum, d'.st, c) == ReadChunk(sum, d.st, c)
    ensures Sound(env, sum, d')
  {
    forall id | id in d'.ns.inode ensures ChunkIDs(d'.st, d'.ns.inode[id].content).Some? {
      assert ChunkIDs(d.st, d.ns.inode[id].content).Some?;
    }
  }

  lemma DropLocatorSound(env: Env, sum: Bytes -> Digest, d: Disk, c: ChunkID)
    ensures Sound(env, sum, d) ==> Sound(env, sum, DropLocator(d, c))
  {
    if Sound(env, sum, d) {
      StoreOnlySound(env, sum, d, DropLocator(d, c));
    }
  }

  lemma AddObjectSound(env: Env, sum: Bytes -> Digest, d: Disk, data: Bytes)
    requires StoreOK(d.st)
    ensures Sound(env, sum, d) ==> Sound(env, sum, AddObject(d, data))
  {
    if Sound(env, sum, d) {
      StoreOnlySound(env, sum, d, AddObject(d, data));
    }
  }

  lemma DropObjectSound(env: Env, sum: Bytes -> Digest, d: Disk, k: Key)
    requires StoreOK(d.st) && k in d.st.dead
    ensures Sound(env, sum, d) ==> Sound(env, sum, DropObject(d, k))
  {
    if Sound(env, sum, d) {
      StoreOnlySound(env, sum, d, DropObject(d, k));
    }
  }

  lemma MoveLocatorSound(env: Env, sum: Bytes -> Digest, d: Disk, c: ChunkID, loc: Locator, now: Time)
    requires Relocates(env, sum, d, c, loc, now)
    ensures Sound(env, sum, d) ==> Sound(env, sum, MoveLocator(d, c, loc, now))
  {
    if Sound(env, sum, d) {
      StoreOnlySound(env, sum, d, MoveLocator(d, c, loc, now));
    }
  }

  lemma DropInodeSound(env: Env, sum: Bytes -> Digest, d: Disk, g: Grave)
    requires DiskOK(d) && g in d.ns.graves && Expired(env, g)
    ensures Sound(env, sum, d) ==> Sound(env, sum, DropInode(d, g.id))
  {
  }
}
