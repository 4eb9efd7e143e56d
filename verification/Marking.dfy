/** Reachability as the mark phase walks it: directory by directory, from the root down. */
module Marking {
  import opened Base
  import opened Namespace
  import opened TreeShape
  import opened Accounting
  import opened Histories
  import opened Storage
  import opened Garbage

  /** A chunk of something at or below `dir`. */
  ghost predicate Under(d: Disk, dir: InodeID, c: ChunkID) {
    exists id :: Within(d.ns.dentry, dir, id) && Needs(d, id, c)
  }

  /** The inodes at or below `dir`: what makes the walk finite. */
  ghost function Below(s: NS, dir: InodeID): set<InodeID> {
    set x | x in s.inode && Within(s.dentry, dir, x)
  }

  lemma WithinFirstStep(d: Dentries, a: InodeID, x: InodeID) returns (k: Slot)
    requires Within(d, a, x) && a != x
    ensures k in d && k.dir == a && Within(d, d[k], x)
  {
    var p :| Walk(d, a, p) == Some(x);
    k := Slot(a, p[0]);
    assert Walk(d, d[k], p[1..]) == Some(x);
  }

  lemma WithinThroughChild(d: Dentries, k: Slot, x: InodeID)
    requires k in d && Within(d, d[k], x)
    ensures Within(d, k.dir, x)
  {
    WithinSelf(d, k.dir);
    WithinChild(d, k.dir, k);
    WithinTransitive(d, k.dir, d[k], x);
  }

  /** The walk below a child is smaller than the walk below its parent. */
  lemma BelowShrinks(s: NS, k: Slot)
    requires Tree(s) && k in s.dentry
    ensures Below(s, s.dentry[k]) < Below(s, k.dir)
  {
    assert Anchored(s, k);
    ParentNotWithin(s, k);
    WithinSelf(s.dentry, k.dir);
    forall x | x in Below(s, s.dentry[k]) ensures x in Below(s, k.dir) {
      WithinThroughChild(s.dentry, k, x);
    }
    assert k.dir in Below(s, k.dir) && k.dir !in Below(s, s.dentry[k]);
  }

  /** What is under a directory is what is under its entries. */
  lemma UnderDir(d: Disk, dir: InodeID, c: ChunkID)
    requires DiskOK(d) && IsDir(d.ns, dir)
    ensures Under(d, dir, c) <==> exists k :: k in d.ns.dentry && k.dir == dir && Under(d, d.ns.dentry[k], c)
  {
    if Under(d, dir, c) {
      var id :| Within(d.ns.dentry, dir, id) && Needs(d, id, c);
      assert id != dir;
      var k := WithinFirstStep(d.ns.dentry, dir, id);
      assert Under(d, d.ns.dentry[k], c);
    }
    if exists k :: k in d.ns.dentry && k.dir == dir && Under(d, d.ns.dentry[k], c) {
      var k :| k in d.ns.dentry && k.dir == dir && Under(d, d.ns.dentry[k], c);
      var id :| Within(d.ns.dentry, d.ns.dentry[k], id) && Needs(d, id, c);
      WithinThroughChild(d.ns.dentry, k, id);
    }
  }

  /** Under a file there is only the file. */
  lemma UnderFile(d: Disk, id: InodeID, c: ChunkID)
    requires DiskOK(d) && id in d.ns.inode && !IsDir(d.ns, id)
    ensures Under(d, id, c) <==> Needs(d, id, c)
  {
    WithinSelf(d.ns.dentry, id);
    FilesHoldNothing(d.ns, id);
    if Under(d, id, c) {
      var x :| Within(d.ns.dentry, id, x) && Needs(d, x, c);
      WithinLeaf(d.ns.dentry, id, x);
    }
  }

  /**
   What the mark phase looks up is there: of every protected file the manifest, and of every graveyard entry in grace or
   pinned the record.
   */
  ghost predicate Markable(env: Env, d: Disk) {
    && (forall id :: Protected(env, d.ns, id) ==> ChunkIDs(d.st, d.ns.inode[id].content).Some?)
    && (forall g :: g in d.ns.graves && !Expired(env, g) ==> g.id in d.ns.inode)
  }

  /** The manifests of all files at or below `dir` can be fetched. */
  ghost predicate Fetchable(d: Disk, dir: InodeID) {
    forall id :: id in d.ns.inode && Within(d.ns.dentry, dir, id) ==> ChunkIDs(d.st, d.ns.inode[id].content).Some?
  }

  lemma FetchableDir(d: Disk, dir: InodeID)
    requires DiskOK(d) && IsDir(d.ns, dir)
    ensures Fetchable(d, dir) <==> forall k :: k in d.ns.dentry && k.dir == dir ==> Fetchable(d, d.ns.dentry[k])
  {
    if Fetchable(d, dir) {
      forall k, id | k in d.ns.dentry && k.dir == dir && id in d.ns.inode && Within(d.ns.dentry, d.ns.dentry[k], id)
        ensures ChunkIDs(d.st, d.ns.inode[id].content).Some?
      {
        WithinThroughChild(d.ns.dentry, k, id);
      }
    } else {
      var id :| id in d.ns.inode && Within(d.ns.dentry, dir, id) && ChunkIDs(d.st, d.ns.inode[id].content).None?;
      assert id != dir;
      var k := WithinFirstStep(d.ns.dentry, dir, id);
      assert !Fetchable(d, d.ns.dentry[k]);
    }
  }

  lemma FetchableFile(d: Disk, id: InodeID)
    requires DiskOK(d) && id in d.ns.inode && !IsDir(d.ns, id)
    ensures Fetchable(d, id) <==> ChunkIDs(d.st, d.ns.inode[id].content).Some?
  {
    WithinSelf(d.ns.dentry, id);
    FilesHoldNothing(d.ns, id);
    forall x | Within(d.ns.dentry, id, x) ensures x == id {
      WithinLeaf(d.ns.dentry, id, x);
    }
  }

  lemma MarkableIs(env: Env, d: Disk)
    ensures Markable(env, d) <==>
            Fetchable(d, ROOT) && Kept(env, d, d.ns.graves)
  {
    if Markable(env, d) {
      forall id | id in d.ns.inode && Within(d.ns.dentry, ROOT, id) ensures ChunkIDs(d.st, d.ns.inode[id].content).Some? {
        assert Protected(env, d.ns, id);
      }
      forall g | g in d.ns.graves && !Expired(env, g) ensures ChunkIDs(d.st, d.ns.inode[g.id].content).Some? {
        assert InGrace(env, d.ns, g.id) && Protected(env, d.ns, g.id);
      }
    }
  }

  /** Nothing a sweep looks up is missing. */
  ghost predicate Whole(env: Env, d: Disk) {
    && (forall id :: id in d.ns.inode ==> ChunkIDs(d.st, d.ns.inode[id].content).Some?)
    && (forall g :: g in d.ns.graves && !Expired(env, g) ==> g.id in d.ns.inode)
  }

  /** One entry of a directory: a file's chunks, or what lies below a subdirectory. */
  method MarkChild(d: Disk, k: Slot, live: set<ChunkID>) returns (ok: bool, marked: set<ChunkID>)
    requires DiskOK(d) && k in d.ns.dentry
    ensures ok ==> Adds(d, d.ns.dentry[k], live, marked)
    ensures ok <==> Fetchable(d, d.ns.dentry[k])
    decreases Below(d.ns, d.ns.dentry[k]), 1
  {
    hide Balanced, Fetchable, Under, Needs;
    var child := d.ns.dentry[k];
    assert Anchored(d.ns, k);
    if d.ns.inode[child].isDir {
      ok, marked := MarkLiveTree(d, child, live);
      return;
    }
    FetchableFile(d, child);
    var ids := ChunkIDs(d.st, d.ns.inode[child].content);
    if ids.None? { return false, live; }
    ok, marked := true, live + (set c | c in ids.value);
    forall c ensures c in marked <==> c in live || Under(d, child, c) {
      UnderFile(d, child, c);
      NeedsIs(d, child, ids.value, c);
    }
  }

  lemma NeedsIs(d: Disk, id: InodeID, ids: seq<ChunkID>, c: ChunkID)
    requires id in d.ns.inode && ChunkIDs(d.st, d.ns.inode[id].content) == Some(ids)
    ensures Needs(d, id, c) <==> c in ids
  {
  }

  /** `marked` is `live` and the chunks of everything at or below `dir`. */
  ghost predicate Adds(d: Disk, dir: InodeID, live: set<ChunkID>, marked: set<ChunkID>) {
    forall c :: c in marked <==> c in live || Under(d, dir, c)
  }

  /** The entries of `done` have been gone through. */
  ghost predicate MarkedSofar(d: Disk, live: set<ChunkID>, marked: set<ChunkID>, done: set<Slot>) {
    && done <= d.ns.dentry.Keys && (forall k :: k in done ==> Fetchable(d, d.ns.dentry[k]))
    && forall c :: c in marked <==> c in live || exists k :: k in done && Under(d, d.ns.dentry[k], c)
  }

  lemma MarkingNext(d: Disk, live: set<ChunkID>, before: set<ChunkID>, after: set<ChunkID>, done: set<Slot>, k: Slot)
    requires MarkedSofar(d, live, before, done) && k in d.ns.dentry
    requires Adds(d, d.ns.dentry[k], before, after) && Fetchable(d, d.ns.dentry[k])
    ensures MarkedSofar(d, live, after, done + {k})
  {
    hide Fetchable, Under;
  }

  lemma MarkingEnds(d: Disk, dir: InodeID, live: set<ChunkID>, marked: set<ChunkID>, kids: set<Slot>)
    requires DiskOK(d) && IsDir(d.ns, dir) && MarkedSofar(d, live, marked, kids)
    requires kids == set k | k in d.ns.dentry.Keys && k.dir == dir
    ensures Adds(d, dir, live, marked) && Fetchable(d, dir)
  {
    hide DiskOK, Fetchable, Under;
    FetchableDir(d, dir);
    forall c ensures c in marked <==> c in live || Under(d, dir, c) {
      UnderDir(d, dir, c);
    }
  }

  /** markLiveTree: adds exactly the chunks of the files at or below `dir`, unless some manifest there cannot be fetched. */
  method MarkLiveTree(d: Disk, dir: InodeID, live: set<ChunkID>) returns (ok: bool, marked: set<ChunkID>)
    requires DiskOK(d) && IsDir(d.ns, dir)
    ensures ok ==> Adds(d, dir, live, marked)
    ensures ok <==> Fetchable(d, dir)
    decreases Below(d.ns, dir), 0
  {
    hide Balanced, Fetchable, Under, MarkedSofar, Adds;
    marked := live;
    var kids := set k | k in d.ns.dentry.Keys && k.dir == dir;
    var todo := kids;
    ghost var done: set<Slot> := {};
    MarkingNone(d, live);
    while todo != {}
      invariant todo <= kids && done == kids - todo && MarkedSofar(d, live, marked, done)
      decreases |todo|
    {
      var k :| k in todo;
      BelowShrinks(d.ns, k);
      ghost var before := marked;
      ok, marked := MarkChild(d, k, marked);
      if !ok {
        FetchableDir(d, dir);
        return;
      }
      MarkingNext(d, live, before, marked, done, k);
      todo, done := todo - {k}, done + {k};
    }
    assert done == kids;
    MarkingEnds(d, dir, live, marked, kids);
    ok := true;
  }

  lemma MarkingNone(d: Disk, live: set<ChunkID>)
    ensures MarkedSofar(d, live, live, {})
  {
  }

  /** Exactly the live chunks. */
  ghost predicate Marks(env: Env, d: Disk, live: set<ChunkID>) {
    forall c :: c in live <==> IsLive(env, d, c)
  }

  lemma LiveIs(env: Env, d: Disk, c: ChunkID)
    ensures IsLive(env, d, c) <==>
            c in env.pending || Under(d, ROOT, c) || KeptChunk(env, d, d.ns.graves, c)
  {
    if IsLive(env, d, c) && c !in env.pending {
      var id :| Protected(env, d.ns, id) && Needs(d, id, c);
      if InGrace(env, d.ns, id) {
        var g :| g in d.ns.graves && g.id == id && !Expired(env, g);
      }
    }
    if Under(d, ROOT, c) {
      var id :| Within(d.ns.dentry, ROOT, id) && Needs(d, id, c);
      assert Protected(env, d.ns, id);
    }
    if exists g :: g in d.ns.graves && !Expired(env, g) && Needs(d, g.id, c) {
      var g :| g in d.ns.graves && !Expired(env, g) && Needs(d, g.id, c);
      assert Protected(env, d.ns, g.id);
    }
  }

  /** The record and the manifest of every entry in grace or pinned are there. */
  ghost predicate Kept(env: Env, d: Disk, graves: set<Grave>) {
    forall g :: g in graves && !Expired(env, g) ==> g.id in d.ns.inode && ChunkIDs(d.st, d.ns.inode[g.id].content).Some?
  }

  /** `c` is a chunk of one of these entries that is in grace or pinned. */
  ghost predicate KeptChunk(env: Env, d: Disk, graves: set<Grave>, c: ChunkID) {
    exists g :: g in graves && !Expired(env, g) && Needs(d, g.id, c)
  }

  lemma KeptMore(env: Env, d: Disk, done: set<Grave>, e: Grave, ids: seq<ChunkID>, c: ChunkID)
    requires !Expired(env, e) ==> e.id in d.ns.inode && ChunkIDs(d.st, d.ns.inode[e.id].content) == Some(ids)
    ensures KeptChunk(env, d, done + {e}, c) <==> KeptChunk(env, d, done, c) || (!Expired(env, e) && c in ids)
  {
    if !Expired(env, e) { NeedsIs(d, e.id, ids, c); }
  }

  /** The chunks of the graveyard's entries in grace or held. */
  method MarkGraves(env: Env, d: Disk, live: set<ChunkID>) returns (ok: bool, marked: set<ChunkID>)
    ensures ok ==> forall c :: c in marked <==> c in live || KeptChunk(env, d, d.ns.graves, c)
    ensures ok <==> Kept(env, d, d.ns.graves)
  {
    hide KeptChunk;
    marked := live;
    var todo := d.ns.graves;
    ghost var done: set<Grave> := {};
    forall c ensures !KeptChunk(env, d, done, c) { KeptNone(env, d, c); }
    while todo != {}
      invariant todo <= d.ns.graves && done == d.ns.graves - todo && Kept(env, d, done)
      invariant forall c :: c in marked <==> c in live || KeptChunk(env, d, done, c)
      decreases |todo|
    {
      var e :| e in todo;
      var chunks := [];
      if !Expired(env, e) {
        if e.id !in d.ns.inode { return false, marked; }
        var ids := ChunkIDs(d.st, d.ns.inode[e.id].content);
        if ids.None? { return false, marked; }
        chunks := ids.value;
        marked := marked + (set c | c in chunks);
      }
      forall c { KeptMore(env, d, done, e, chunks, c); }
      todo, done := todo - {e}, done + {e};
    }
    assert done == d.ns.graves;
    ok := true;
  }

  lemma KeptNone(env: Env, d: Disk, c: ChunkID)
    ensures !KeptChunk(env, d, {}, c)
  {
  }

  /**
   markLive: the tree, the graves in grace or held, and the packer's buffer. It fails exactly if a manifest or a record
   among them is missing.
   */
  method MarkLive(env: Env, d: Disk) returns (ok: bool, live: set<ChunkID>)
    requires DiskOK(d)
    ensures ok ==> Marks(env, d, live)
    ensures ok <==> Markable(env, d)
  {
    hide Markable, IsLive, Fetchable, Under;
    MarkableIs(env, d);
    ok, live := MarkLiveTree(d, ROOT, {});
    if !ok { return; }
    ok, live := MarkGraves(env, d, live);
    if !ok { return; }
    live := live + env.pending;
    forall c ensures c in live <==> IsLive(env, d, c) {
      LiveIs(env, d, c);
    }
  }

  /** An unchanged view means the marks still hold. */
  lemma MarksKept(env: Env, sum: Bytes -> Digest, d: Disk, d': Disk, live: set<ChunkID>)
    requires Inv(d.ns) && Inv(d'.ns) && ViewOf(env, sum, d') == ViewOf(env, sum, d) && Marks(env, d, live)
    ensures Marks(env, d', live)
  {
    forall c ensures IsLive(env, d', c) <==> IsLive(env, d, c) {
      if IsLive(env, d, c) {
        ViewLive(env, sum, d, d', c);
      }
      if IsLive(env, d', c) {
        ViewLive(env, sum, d', d, c);
      }
    }
  }
}
