/**
 The two grace periods of a sweep (pkg/repo/gc.go): a file that lost its last name keeps its chunks for one, and chunks
 that were stored for a commit still to come, which nothing refers to, outlive every sweep for one, which is what
 Invariant GC-1 sizes it for.
 */
module Uncommitted {
  import opened Base
  import opened Namespace
  import opened TreeShape
  import opened Histories
  import opened Storage
  import opened Garbage
  import opened Collector
  import ContentPath
  import Grace
  import Marking
  import Space
  import Transactions

  // --- after the last name ---------------------------------------------------------------------------

  /** The disk after a removal. */
  function Removing(d: Disk, dir: InodeID, name: string, at: Time): Disk
    requires RemoveEntry(d.ns, dir, name, at).Ok?
  {
    d.(ns := RemoveEntry(d.ns, dir, name, at).value)
  }

  /** A file loses its last name: it gets the one grave of its own, and no name leads to it. */
  lemma LastNameGoes(d: Disk, dir: InodeID, name: string, at: Time)
    requires DiskOK(d) && RemoveEntry(d.ns, dir, name, at).Ok?
    requires var id := d.ns.dentry[Slot(dir, name)]; !d.ns.inode[id].isDir && d.ns.inode[id].nlink <= 1
    ensures var d', id := Removing(d, dir, name, at), d.ns.dentry[Slot(dir, name)];
            && Inv(d'.ns) && id in d'.ns.inode && d'.ns.inode[id].content == d.ns.inode[id].content
            && d'.ns.graves == d.ns.graves + {Grave(at, id)} && !Within(d'.ns.dentry, ROOT, id)
            && forall g :: g in d'.ns.graves && g.id == id ==> g == Grave(at, id)
  {
    hide RemoveEntry;
    var s, k := d.ns, Slot(dir, name);
    Transactions.RemoveDoes(s, dir, name, at);
    var s', id := RemoveEntry(s, dir, name, at).value, s.dentry[k];
    FilesHoldNothing(s, id);
    RemoveKeepsInv(s, OpRemove(dir, name, at));
    GravedUnnamed(s', Grave(at, id));
    ReachableIffNamed(s', id);
  }

  lemma GravedUnnamed(s: NS, g: Grave)
    requires Inv(s) && g in s.graves && g.id in s.inode
    ensures !LiveDir(s, g.id) && forall h :: h in s.graves && h.id == g.id ==> h == g
  {
    VitalAt(s, g.id);
    assert IsGraved(s, g.id);
  }

  /** Some other inode that a sweep must keep needs the chunk. */
  ghost predicate NeededElsewhere(env: Env, d: Disk, id: InodeID, c: ChunkID) {
    exists x :: x != id && Protected(env, d.ns, x) && Needs(d, x, c)
  }

  ghost predicate SweptElsewhere(env: Env, d: Disk, id: InodeID, c: ChunkID) {
    exists g :: g in d.ns.graves && g.id != id && Expired(env, g) && Needs(d, g.id, c)
  }

  /**
   Once a file has lost its last name, at `at`, its chunks are live for a sweep exactly if that comes less than a grace
   period later, the file is held open, the chunk waits in the packer, or another inode that must stay needs it. They are
   swept exactly if the grace period is over and nobody holds the file, or another entry past grace has them.
   */
  lemma UnlinkedLiveIff(env: Env, d: Disk, dir: InodeID, name: string, at: Time, c: ChunkID)
    requires DiskOK(d) && RemoveEntry(d.ns, dir, name, at).Ok?
    requires var id := d.ns.dentry[Slot(dir, name)]; d.ns.inode[id].nlink <= 1 && Needs(d, id, c)
    ensures var d', id := Removing(d, dir, name, at), d.ns.dentry[Slot(dir, name)];
            && (IsLive(env, d', c) <==> env.cutoff < at || id in env.held || c in env.pending || NeededElsewhere(env, d', id, c))
            && (Swept(env, d', c) <==> (at <= env.cutoff && id !in env.held) || SweptElsewhere(env, d', id, c))
  {
    hide RemoveEntry, Inv, StoreOK;
    Transactions.RemoveDoes(d.ns, dir, name, at);
    var d', id := Removing(d, dir, name, at), d.ns.dentry[Slot(dir, name)];
    LastNameGoes(d, dir, name, at);
    assert Needs(d', id, c);
    assert Grave(at, id) in d'.ns.graves;
    assert InGrace(env, d'.ns, id) <==> !Expired(env, Grave(at, id));
  }

  /** What nothing refers to, marked or past grace, goes with a finished sweep exactly if its container was sealed by the cutoff. */
  lemma OrphanGoesIff(sum: Bytes -> Digest, r: Run, log: Log, c: ChunkID)
    requires Traced(sum, r, log) && r.marked && Clean(r.env, log.last.disk)
    requires c in r.start.st.locators && !IsLive(r.env, r.start, c) && !Swept(r.env, r.start, c)
    ensures var k := r.start.st.locators[c].container;
            c !in log.last.disk.st.locators <==> k in r.start.st.sealed && r.start.st.sealed[k] <= r.env.cutoff
  {
    hide Traced, Clean, ViewOf, IsLive, Swept;
    TracedFine(sum, r, log);
    TracedStart(sum, r, log);
    CleanIsExact(r.env, sum, r.start, log.last.disk);
  }

  // --- seal times -----------------------------------------------------------------------------------------

  /** The chunk is located, in a container that if it has a seal time was sealed at `t` or later. */
  predicate SealedSince(st: Store, c: ChunkID, t: Time) {
    c in st.locators && (st.locators[c].container in st.sealed ==> st.sealed[st.locators[c].container] >= t)
  }

  lemma SealsKeeps(st: Store, st': Store, since: Time, c: ChunkID, t: Time)
    requires Seals(st, st', since) && KeysDrawn(st) && SealedSince(st, c, t) && c in st'.locators && t <= since
    ensures SealedSince(st', c, t)
  {
  }

  lemma RunSeals(sum: Bytes -> Digest, r: Run, log: Log)
    requires Traced(sum, r, log)
    ensures Seals(r.start.st, log.last.disk.st, r.since) && SealedBy(r.start.st, log.last.disk.st, log.last.now)
  {
    hide ViewOf, DiskOK, Sound, Seals, Grace.Step;
    TracedFine(sum, r, log);
  }

  /** Every chunk is in a container that has a seal time, so none is out of the reach of every sweep. */
  ghost predicate AllSealed(st: Store) {
    forall c :: c in st.locators ==> st.locators[c].container in st.sealed
  }

  lemma SealsAll(st: Store, st': Store, since: Time)
    requires Seals(st, st', since) && AllSealed(st)
    ensures AllSealed(st')
  {
  }

  /** What storing locates anew is in a container sealed then. */
  lemma StoredIsSealed(st: Store, st': Store, now: Time, c: ChunkID)
    requires ContentPath.SealedNow(st, st', now) && KeysDrawn(st) && c in st'.locators && c !in st.locators
    ensures SealedSince(st', c, now) && st'.locators[c].container in st'.sealed
  {
  }

  // --- sweeps, compactions and commits in any order -----------------------------------------------------------

  /**
   What happens to a disk after a chunk was stored: a sweep or compaction, stopped at any of its writes or finished, or
   others storing, committing, unlinking and renaming as they like.
   */
  datatype Turn = Collecting(r: Run, log: Log) | Others(disk: Disk, now: Time)

  function DiskAfter(d: Disk, turns: seq<Turn>): Disk {
    if turns == [] then d
    else match turns[|turns| - 1]
      case Collecting(_, log) => log.last.disk
      case Others(d', _) => d'
  }

  /** Others leave what is located located, with the same bytes, and manifests as they are. */
  ghost predicate Extends(sum: Bytes -> Digest, st: Store, st': Store, now: Time) {
    && Seals(st, st', now) && KeysDrawn(st')
    && (forall c :: c in st.locators ==> c in st'.locators && ReadChunk(sum, st', c) == ReadChunk(sum, st, c))
    && (forall m :: m in st.manifests ==> m in st'.manifests && st'.manifests[m] == st.manifests[m])
  }

  /** Each turn begins where the one before ended, and none before `since`. */
  ghost predicate Turns(sum: Bytes -> Digest, d: Disk, since: Time, turns: seq<Turn>) {
    turns != [] ==>
      && Turns(sum, d, since, turns[..|turns| - 1])
      && var before := DiskAfter(d, turns[..|turns| - 1]);
         match turns[|turns| - 1]
         case Collecting(r, log) => Traced(sum, r, log) && r.marked && r.start == before && since <= r.since
         case Others(d', now) => Extends(sum, before.st, d'.st, now) && since <= now
  }

  /** Every sweep and compaction of these is to keep the chunk. */
  ghost predicate AllKeep(turns: seq<Turn>, c: ChunkID) {
    forall i :: 0 <= i < |turns| && turns[i].Collecting? ==> Keeps(turns[i].r.env, turns[i].r.start, c)
  }

  /** Every sweep of these has its cutoff before `t` and starts with the chunk in no entry past grace. */
  ghost predicate AllYoung(turns: seq<Turn>, c: ChunkID, t: Time) {
    forall i :: 0 <= i < |turns| && turns[i].Collecting? ==>
                  IsLive(turns[i].r.env, turns[i].r.start, c) || (turns[i].r.env.cutoff < t && !Swept(turns[i].r.env, turns[i].r.start, c))
  }

  lemma ExtendsOne(sum: Bytes -> Digest, st: Store, st': Store, now: Time, c: ChunkID)
    requires Extends(sum, st, st', now) && c in st.locators
    ensures c in st'.locators && ReadChunk(sum, st', c) == ReadChunk(sum, st, c)
  {
  }

  lemma {:induction false} TurnsDrawn(sum: Bytes -> Digest, d: Disk, since: Time, turns: seq<Turn>)
    requires Turns(sum, d, since, turns) && KeysDrawn(d.st)
    ensures KeysDrawn(DiskAfter(d, turns).st)
    decreases |turns|
  {
    hide Traced, Extends, KeysDrawn;
    if turns != [] {
      match turns[|turns| - 1]
      case Collecting(r, log) => TracedDrawn(sum, r, log);
      case Others(d', now) => ExtendsDrawn(sum, DiskAfter(d, turns[..|turns| - 1]).st, d'.st, now);
    }
  }

  lemma TracedDrawn(sum: Bytes -> Digest, r: Run, log: Log)
    requires Traced(sum, r, log)
    ensures KeysDrawn(log.last.disk.st)
  {
    hide Traced, ViewOf, Inv;
    TracedFine(sum, r, log);
  }

  lemma ExtendsDrawn(sum: Bytes -> Digest, st: Store, st': Store, now: Time)
    requires Extends(sum, st, st', now)
    ensures KeysDrawn(st') && Seals(st, st', now)
  {
  }

  lemma ExtendsSeals(sum: Bytes -> Digest, st: Store, st': Store, now: Time)
    requires Extends(sum, st, st', now)
    ensures Seals(st, st', now)
  {
  }

  /** Whatever happens in whatever order, seal times stay, and chunks that move or come get one from `since` on. */
  lemma {:induction false} TurnsSeal(sum: Bytes -> Digest, d: Disk, since: Time, turns: seq<Turn>)
    requires Turns(sum, d, since, turns)
    ensures Seals(d.st, DiskAfter(d, turns).st, since) && (AllSealed(d.st) ==> AllSealed(DiskAfter(d, turns).st))
    decreases |turns|
  {
    hide Traced, Extends, Seals, AllSealed;
    SealsNothing(d.st, since);
    if turns != [] {
      var before := DiskAfter(d, turns[..|turns| - 1]);
      TurnsSeal(sum, d, since, turns[..|turns| - 1]);
      match turns[|turns| - 1] {
        case Collecting(r, log) =>
          RunSeals(sum, r, log);
          SealsTwice(d.st, before.st, log.last.disk.st, since, r.since);
        case Others(d', now) =>
          ExtendsSeals(sum, before.st, d'.st, now);
          SealsTwice(d.st, before.st, d'.st, since, now);
      }
    }
    if AllSealed(d.st) {
      SealsAll(d.st, DiskAfter(d, turns).st, since);
    }
  }

  /** The chunk is in another container than it was. */
  predicate Moved(st: Store, st': Store, c: ChunkID) {
    c in st'.locators && (c in st.locators ==> st'.locators[c].container != st.locators[c].container)
  }

  lemma MovedSealed(st: Store, st': Store, since: Time, latest: Time, c: ChunkID)
    requires Seals(st, st', since) && SealedBy(st, st', latest) && KeysDrawn(st) && Moved(st, st', c)
    ensures st'.locators[c].container in st'.sealed && since <= st'.sealed[st'.locators[c].container] <= latest
  {
  }

  lemma SealsHolds(st: Store, st': Store, since: Time, c: ChunkID)
    requires Seals(st, st', since) && c in st.locators && c in st'.locators && st.locators[c].container in st.sealed
    ensures var k, k' := st.locators[c].container, st'.locators[c].container;
            k' in st'.sealed && (k' == k ==> st'.sealed[k'] == st.sealed[k])
  {
  }

  /**
   No chunk is stranded by a compaction. A chunk that a run has moved is in a container sealed during that run. Whatever
   happens afterwards, once nothing refers to the chunk a finished sweep takes it exactly if its cutoff is no earlier than
   the seal time of its container, which is the one the run gave unless the chunk was moved again.
   */
  lemma MovedOrphanGoesIff(sum: Bytes -> Digest, r: Run, log: Log, since: Time, turns: seq<Turn>, r2: Run, log2: Log, c: ChunkID)
    requires Traced(sum, r, log) && Moved(r.start.st, log.last.disk.st, c)
    requires Turns(sum, log.last.disk, since, turns) && r2.start == DiskAfter(log.last.disk, turns)
    requires Traced(sum, r2, log2) && r2.marked && Clean(r2.env, log2.last.disk)
    requires c in r2.start.st.locators && !IsLive(r2.env, r2.start, c) && !Swept(r2.env, r2.start, c)
    ensures var st, st2 := log.last.disk.st, r2.start.st;
            var k, k2 := st.locators[c].container, st2.locators[c].container;
            && k in st.sealed && r.since <= st.sealed[k] <= log.last.now
            && k2 in st2.sealed && (k2 == k ==> st2.sealed[k2] == st.sealed[k])
            && (c !in log2.last.disk.st.locators <==> st2.sealed[k2] <= r2.env.cutoff)
  {
    hide Traced, Turns, Seals, SealedBy, Clean, IsLive, Swept, KeysDrawn;
    RunSeals(sum, r, log);
    StartDrawn(sum, r, log);
    MovedSealed(r.start.st, log.last.disk.st, r.since, log.last.now, c);
    TurnsSeal(sum, log.last.disk, since, turns);
    SealsHolds(log.last.disk.st, r2.start.st, since, c);
    OrphanGoesIff(sum, r2, log2, c);
  }

  lemma StartDrawn(sum: Bytes -> Digest, r: Run, log: Log)
    requires Traced(sum, r, log)
    ensures KeysDrawn(r.start.st)
  {
    hide Traced, ViewOf, Inv, Seasoned;
    TracedStart(sum, r, log);
  }

  /** In a store where every chunk's container is sealed, what nothing refers to goes with every sweep that starts late enough. */
  lemma OrphansGo(sum: Bytes -> Digest, d: Disk, since: Time, turns: seq<Turn>, r: Run, log: Log, c: ChunkID)
    requires AllSealed(d.st) && Turns(sum, d, since, turns) && r.start == DiskAfter(d, turns)
    requires Traced(sum, r, log) && r.marked && Clean(r.env, log.last.disk)
    requires c in r.start.st.locators && !IsLive(r.env, r.start, c) && !Swept(r.env, r.start, c)
    ensures var k := r.start.st.locators[c].container;
            k in r.start.st.sealed && (c !in log.last.disk.st.locators <==> r.start.st.sealed[k] <= r.env.cutoff)
  {
    hide Traced, Turns, Seals, SealedBy, Clean, IsLive, Swept;
    TurnsSeal(sum, d, since, turns);
    OrphanGoesIff(sum, r, log, c);
  }

  /** A chunk that every sweep and compaction is to keep is located at the end and reads back the same bytes. */
  lemma {:induction false} KeptThrough(sum: Bytes -> Digest, d: Disk, since: Time, turns: seq<Turn>, c: ChunkID)
    requires Turns(sum, d, since, turns) && AllKeep(turns, c) && ReadChunk(sum, d.st, c).Some?
    ensures c in DiskAfter(d, turns).st.locators && ReadChunk(sum, DiskAfter(d, turns).st, c) == ReadChunk(sum, d.st, c)
    decreases |turns|
  {
    hide Traced, Extends, Keeps;
    if turns != [] {
      var before := DiskAfter(d, turns[..|turns| - 1]);
      KeptThrough(sum, d, since, turns[..|turns| - 1], c);
      match turns[|turns| - 1]
      case Collecting(r, log) => KeptAlong(sum, r, log, log.last, c);
      case Others(d', now) => ExtendsOne(sum, before.st, d'.st, now, c);
    }
  }

  /** A chunk sealed at `t` or later is to be kept by every sweep with a cutoff before `t`, unless an entry past grace has it. */
  lemma YoungKeeps(env: Env, d: Disk, c: ChunkID, t: Time)
    requires SealedSince(d.st, c, t) && (IsLive(env, d, c) || (env.cutoff < t && !Swept(env, d, c)))
    ensures Keeps(env, d, c)
  {
  }

  lemma {:induction false} YoungThrough(sum: Bytes -> Digest, d: Disk, since: Time, turns: seq<Turn>, c: ChunkID, t: Time)
    requires Turns(sum, d, since, turns) && AllYoung(turns, c, t) && SealedSince(d.st, c, t) && t <= since && KeysDrawn(d.st)
    ensures AllKeep(turns, c) && SealedSince(DiskAfter(d, turns).st, c, t)
    decreases |turns|
  {
    hide Traced, Extends, Keeps, SealedSince, IsLive, Swept, KeysDrawn, Seals;
    if turns != [] {
      var n := |turns| - 1;
      var before := DiskAfter(d, turns[..n]);
      YoungThrough(sum, d, since, turns[..n], c, t);
      TurnsDrawn(sum, d, since, turns[..n]);
      match turns[n] {
        case Collecting(r, log) =>
          YoungKeeps(r.env, r.start, c, t);
          KeptAlong(sum, r, log, log.last, c);
          RunSeals(sum, r, log);
          SealsKeeps(before.st, log.last.disk.st, r.since, c, t);
        case Others(d', now) =>
          SinceLocated(before.st, c, t);
          ExtendsOne(sum, before.st, d'.st, now, c);
          ExtendsDrawn(sum, before.st, d'.st, now);
          SealsKeeps(before.st, d'.st, now, c, t);
      }
      assert forall i :: 0 <= i < n ==> turns[i] == turns[..n][i];
    }
  }

  lemma SinceLocated(st: Store, c: ChunkID, t: Time)
    requires SealedSince(st, c, t)
    ensures c in st.locators
  {
  }

  lemma {:induction false} ManifestThrough(sum: Bytes -> Digest, d: Disk, since: Time, turns: seq<Turn>, m: ManifestID)
    requires Turns(sum, d, since, turns) && m in d.st.manifests
    ensures var st := DiskAfter(d, turns).st; m in st.manifests && st.manifests[m] == d.st.manifests[m]
    decreases |turns|
  {
    hide Traced;
    if turns != [] {
      ManifestThrough(sum, d, since, turns[..|turns| - 1], m);
      match turns[|turns| - 1]
      case Collecting(r, log) => TracedManifests(sum, r, log);
      case Others(_, _) =>
    }
  }

  lemma TracedManifests(sum: Bytes -> Digest, r: Run, log: Log)
    requires Traced(sum, r, log) && r.marked
    ensures log.last.disk.st.manifests == r.start.st.manifests
  {
    hide Traced, Inv, StoreOK;
    TracedFine(sum, r, log);
    TracedStart(sum, r, log);
    ViewManifests(r.env, sum, r.start, log.last.disk);
  }

  /** Content of which every chunk is kept reads back the same at the end. */
  lemma ContentThrough(sum: Bytes -> Digest, d: Disk, since: Time, turns: seq<Turn>, c: Content)
    requires Turns(sum, d, since, turns) && ReadContent(sum, d.st, c).Some?
    requires ChunkIDs(d.st, c).Some? && forall i :: 0 <= i < |ChunkIDs(d.st, c).value| ==> AllKeep(turns, ChunkIDs(d.st, c).value[i])
    ensures ReadContent(sum, DiskAfter(d, turns).st, c) == ReadContent(sum, d.st, c)
  {
    hide Turns, AllKeep, ReadChunk, DiskAfter;
    var ids := ChunkIDs(d.st, c).value;
    forall i | 0 <= i < |ids| ensures ReadChunk(sum, DiskAfter(d, turns).st, ids[i]) == ReadChunk(sum, d.st, ids[i]) {
      NeededReads(sum, d.st, c, i);
      KeptThrough(sum, d, since, turns, ids[i]);
    }
    if c.ByManifest? {
      ManifestThrough(sum, d, since, turns, c.manifest);
    }
    ReadContentAgrees(sum, d.st, DiskAfter(d, turns).st, c);
  }

  // --- from storing to committing ------------------------------------------------------------------------------

  /**
   Every chunk of the content is either one that all sweeps and compactions of these turns are to keep, or was located
   anew at `t` and all cutoffs are before that, with the chunk in no entry past grace.
   */
  ghost predicate Sheltered(st0: Store, st: Store, c: Content, turns: seq<Turn>, t: Time) {
    ChunkIDs(st, c).Some? ==>
      forall i :: 0 <= i < |ChunkIDs(st, c).value| ==>
                    var id := ChunkIDs(st, c).value[i]; AllKeep(turns, id) || (id !in st0.locators && AllYoung(turns, id, t))
  }

  lemma ShelteredReads(sum: Bytes -> Digest, st0: Store, d: Disk, now: Time, turns: seq<Turn>, c: Content)
    requires Turns(sum, d, now, turns) && ReadContent(sum, d.st, c).Some? && Sheltered(st0, d.st, c, turns, now)
    requires ContentPath.SealedNow(st0, d.st, now) && KeysDrawn(st0) && KeysDrawn(d.st)
    ensures ReadContent(sum, DiskAfter(d, turns).st, c) == ReadContent(sum, d.st, c)
  {
    hide Turns, AllKeep, AllYoung, ReadChunk, DiskAfter, ContentPath.SealedNow, KeysDrawn, SealedSince;
    var ids := ChunkIDs(d.st, c).value;
    forall i | 0 <= i < |ids| ensures AllKeep(turns, ids[i]) {
      if !AllKeep(turns, ids[i]) {
        NeededReads(sum, d.st, c, i);
        ReadsLocated(sum, d.st, ids[i]);
        StoredIsSealed(st0, d.st, now, ids[i]);
        YoungThrough(sum, d, now, turns, ids[i], now);
      }
    }
    ContentThrough(sum, d, now, turns, c);
  }

  lemma ReadsLocated(sum: Bytes -> Digest, st: Store, c: ChunkID)
    requires ReadChunk(sum, st, c).Some?
    ensures c in st.locators
  {
  }

  /**
   Invariant GC-1 at work. Content is stored for a commit that is still to come. Whatever sweeps, compactions and other
   clients do in the meantime, wherever they are stopped, as long as the cutoffs are before the storing and no entry past
   grace has its chunks, it reads back as the data; chunks that were there before must be kept on their own account.
   */
  method StoreAhead(repo: ContentPath.Repo, data: Bytes, now: Time) returns (c: Content)
    requires repo.Valid()
    modifies repo, repo.packer
    ensures repo.Valid() && ContentPath.Kept(old(repo.st), repo.st)
    ensures ContentPath.CollisionFree(repo.sum, data, repo.chunkSize) && (!c.ByManifest? || ContentPath.WidthsFit(data, repo.chunkSize)) ==>
              forall s: NS, turns :: Turns(repo.sum, Disk(s, repo.st), now, turns) && Sheltered(old(repo.st), repo.st, c, turns, now) ==>
                ReadContent(repo.sum, DiskAfter(Disk(s, repo.st), turns).st, c) == Some(data)
  {
    hide Turns, Sheltered, DiskAfter, ReadContent, ContentPath.Kept, ContentPath.SealedNow, ContentPath.CollisionFree, ContentPath.WidthsFit;
    hide ValidLocators, ValidManifests;
    c := repo.StoreAndFlush(data, now);
    if ContentPath.CollisionFree(repo.sum, data, repo.chunkSize) && (!c.ByManifest? || ContentPath.WidthsFit(data, repo.chunkSize)) {
      forall s: NS, turns | Turns(repo.sum, Disk(s, repo.st), now, turns) && Sheltered(old(repo.st), repo.st, c, turns, now)
        ensures ReadContent(repo.sum, DiskAfter(Disk(s, repo.st), turns).st, c) == Some(data)
      {
        ShelteredReads(repo.sum, old(repo.st), Disk(s, repo.st), now, turns, c);
      }
    }
  }

  /** Others who store, and leave the packer empty, extend the store so. */
  lemma StoringExtends(sum: Bytes -> Digest, st: Store, st': Store, now: Time)
    requires ContentPath.Kept(st, st') && ContentPath.SealedNow(st, st', now) && ValidStore(sum, st) && ValidStore(sum, st')
    requires forall c :: c in st.locators ==> NoCollision(sum, ReadChunk(sum, st, c).value)
    ensures Extends(sum, st, st', now)
  {
    forall c | c in st.locators ensures c in st'.locators && ReadChunk(sum, st', c) == ReadChunk(sum, st, c) {
      ContentPath.KeptReads(sum, st, st', c);
    }
  }

  /** A sweep that starts less than the minimum grace after the storing has its cutoff before it. */
  lemma CutoffBefore(sum: Bytes -> Digest, r: Run, d: Disk, grace: Time, held: set<InodeID>, pending: set<ChunkID>, t: Time)
    requires Starts(sum, r, d, grace, held, pending) && grace > Grace.MIN_GRACE && r.since <= t + Grace.MIN_GRACE
    ensures r.env.cutoff < t
  {
  }

  lemma ValidIsOK(sum: Bytes -> Digest, st: Store)
    requires ValidStore(sum, st)
    ensures StoreOK(st)
  {
  }

  /** Every chunk of the content was located anew and is in no entry past grace. */
  ghost predicate Anew(st0: Store, d: Disk, env: Env, c: Content) {
    ChunkIDs(d.st, c).Some? ==>
      forall i :: 0 <= i < |ChunkIDs(d.st, c).value| ==>
                    ChunkIDs(d.st, c).value[i] !in st0.locators && !Swept(env, d, ChunkIDs(d.st, c).value[i])
  }

  lemma OneTurn(sum: Bytes -> Digest, st0: Store, r: Run, log: Log, now: Time, c: Content)
    requires Traced(sum, r, log) && r.marked && now <= r.since && r.env.cutoff < now && Anew(st0, r.start, r.env, c)
    ensures var turns := [Collecting(r, log)];
            Turns(sum, r.start, now, turns) && Sheltered(st0, r.start.st, c, turns, now) && DiskAfter(r.start, turns) == log.last.disk
  {
    hide Traced, Swept, IsLive;
    var turns := [Collecting(r, log)];
    assert turns[..0] == [] && Turns(sum, r.start, now, []);
  }

  /**
   One sweep between the storing and the commit: started no later than the minimum grace after the storing, and however
   it ends, it leaves the content readable.
   */
  method StoreThenSweep(repo: ContentPath.Repo, s: NS, data: Bytes, now: Time, grace: Time, held: set<InodeID>, pending: set<ChunkID>,
                        batchDelete: int, failed: set<Key>) returns (c: Content, d: Disk, ghost r: Run)
    requires repo.Valid() && Inv(s) && DirsBare(s) && grace > Grace.MIN_GRACE
    modifies repo, repo.packer
    ensures Starts(repo.sum, r, Disk(s, repo.st), grace, held, pending) && now <= r.since
    ensures ContentPath.CollisionFree(repo.sum, data, repo.chunkSize) && (!c.ByManifest? || ContentPath.WidthsFit(data, repo.chunkSize))
            && r.since <= now + Grace.MIN_GRACE && Anew(old(repo.st), r.start, r.env, c) ==>
              ReadContent(repo.sum, d.st, c) == Some(data)
  {
    hide Turns, Sheltered, ReadContent, Inv, Anew, Traced, Fine, Prompt, ContentPath.CollisionFree, ContentPath.WidthsFit, ViewOf, Sound, DirsBare;
    hide ValidLocators, ValidManifests, StoreOK, Clean, Space.AllSettled, Tidied, Collects, CountsGone, SweptLocated, Marking.Markable, Finishes;
    c := StoreAhead(repo, data, now);
    ValidIsOK(repo.sum, repo.st);
    var gc := new Collector(repo.sum, Disk(s, repo.st), now);
    var ok, collected;
    ghost var removed;
    ok, collected, r, removed := gc.Sweep(grace, held, pending, batchDelete, failed);
    d := gc.disk;
    if r.since <= now + Grace.MIN_GRACE && Anew(old(repo.st), r.start, r.env, c) {
      OneTurn(repo.sum, old(repo.st), r, gc.log, now, c);
    }
  }

  /** Once the commit is made, under a directory of the tree, the file's chunks are live for every sweep there is. */
  lemma CommittedIsLive(env: Env, d: Disk, dir: InodeID, name: string, rec: InodeRecord, now: Time, c: ChunkID)
    requires DiskOK(d) && LiveDir(d.ns, dir) && FileRecord(rec) && CommitFile(d.ns, dir, name, rec, now).Ok?
    requires ChunkIDs(d.st, rec.content).Some? && c in ChunkIDs(d.st, rec.content).value
    ensures var d' := d.(ns := CommitFile(d.ns, dir, name, rec, now).value); var k := Slot(dir, name);
            && k in d'.ns.dentry && d'.ns.dentry[k] in d'.ns.inode && d'.ns.inode[d'.ns.dentry[k]].content == rec.content
            && Protected(env, d'.ns, d'.ns.dentry[k]) && IsLive(env, d', c)
  {
    hide CommitFile, Inv, StoreOK;
    var d', k := d.(ns := CommitFile(d.ns, dir, name, rec, now).value), Slot(dir, name);
    CommitKeepsInv(d.ns, OpCommit(dir, name, rec, now));
    Transactions.CommitDoes(d.ns, dir, name, rec, now);
    NamedReached(d'.ns, k);
    assert Needs(d', d'.ns.dentry[k], c);
  }

  lemma NamedReached(s: NS, k: Slot)
    requires Inv(s) && k in s.dentry
    ensures Within(s.dentry, ROOT, s.dentry[k])
  {
    assert Named(s.dentry, s.dentry[k]);
    ReachableIffNamed(s, s.dentry[k]);
  }
}
