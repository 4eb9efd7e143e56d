/** The single writes of a sweep, a compaction and a reap, and what each leaves alone. */
module GarbageWrites {
  import opened Base
  import opened Namespace
  import opened Histories
  import opened Storage
  import opened Garbage

  function DropLocator(d: Disk, c: ChunkID): Disk {
    d.(st := d.st.(locators := d.st.locators - {c}))
  }

  function DropInode(d: Disk, id: InodeID): Disk {
    d.(ns := DeleteInode(d.ns, id))
  }

  function DropGrave(d: Disk, g: Grave): Disk {
    d.(ns := RemoveGrave(d.ns, g))
  }

  function AddObject(d: Disk, data: Bytes): Disk {
    d.(st := PutObject(d.st, data))
  }

  function MoveLocator(d: Disk, c: ChunkID, loc: Locator, now: Time): Disk {
    d.(st := PutLocator(d.st, c, loc, now))
  }

  function MarkDead(d: Disk, k: Key, at: Time): Disk {
    d.(st := d.st.(dead := d.st.dead[k := at]))
  }

  function DropObject(d: Disk, k: Key): Disk {
    d.(st := d.st.(objects := d.st.objects - {k}))
  }

  function UnmarkDead(d: Disk, k: Key): Disk {
    d.(st := d.st.(dead := d.st.dead - {k}))
  }

  // --- references --------------------------------------------------------------------

  lemma NeedsSame(d: Disk, d': Disk, id: InodeID, c: ChunkID)
    requires d'.st.manifests == d.st.manifests
    requires id in d.ns.inode && id in d'.ns.inode && d'.ns.inode[id] == d.ns.inode[id]
    ensures Needs(d', id, c) <==> Needs(d, id, c)
  {
  }

  /** With the namespace and the manifests untouched, the same chunks are live and the same are swept. */
  lemma RefsSame(env: Env, d: Disk, d': Disk, c: ChunkID)
    requires d'.ns == d.ns && d'.st.manifests == d.st.manifests
    ensures (IsLive(env, d', c) <==> IsLive(env, d, c)) && (Swept(env, d', c) <==> Swept(env, d, c))
  {
    forall id | id in d.ns.inode ensures Needs(d', id, c) <==> Needs(d, id, c) {
      NeedsSame(d, d', id, c);
    }
    assert forall id :: Protected(env, d.ns, id) ==> id in d.ns.inode;
    assert forall id :: Needs(d, id, c) || Needs(d', id, c) ==> id in d.ns.inode;
  }

  /** Keeps, with the references of one disk and the store of another. */
  ghost predicate KeepsIn(env: Env, d: Disk, st: Store, c: ChunkID) {
    c in st.locators && (IsLive(env, d, c) || (!Swept(env, d, c) && !Aged(env, st, c)))
  }

  /** A change of the store alone: the view needs the same chunks kept, and those read the same. */
  lemma StoreChangeKeepsView(env: Env, sum: Bytes -> Digest, d: Disk, d': Disk)
    requires d'.ns == d.ns && d'.st.manifests == d.st.manifests
    requires forall c :: KeepsIn(env, d, d'.st, c) <==> KeepsIn(env, d, d.st, c)
    requires forall c :: KeepsIn(env, d, d.st, c) ==> ReadChunk(sum, d'.st, c) == ReadChunk(sum, d.st, c)
    ensures ViewOf(env, sum, d') == ViewOf(env, sum, d)
  {
    forall c ensures (IsLive(env, d', c) <==> IsLive(env, d, c)) && (Keeps(env, d', c) <==> Keeps(env, d, c)) {
      RefsSame(env, d, d', c);
      assert KeepsIn(env, d, d'.st, c) <==> KeepsIn(env, d, d.st, c);
    }
    assert forall c :: Keeps(env, d', c) ==> c in d'.st.locators;
    assert ViewOf(env, sum, d').chunks == ViewOf(env, sum, d).chunks;
    assert ViewOf(env, sum, d').readable == ViewOf(env, sum, d).readable;
  }

  // --- locators ----------------------------------------------------------------------

  /** Dropping the locator of a chunk that is not live and is swept or aged. */
  lemma DropLocatorKeepsView(env: Env, sum: Bytes -> Digest, d: Disk, c: ChunkID)
    requires DiskOK(d) && Droppable(env, d, c)
    ensures ViewOf(env, sum, DropLocator(d, c)) == ViewOf(env, sum, d) && DiskOK(DropLocator(d, c))
  {
    StoreChangeKeepsView(env, sum, d, DropLocator(d, c));
  }

  /** A locator that may go: of a chunk that is not live, and is swept or aged. */
  ghost predicate Droppable(env: Env, d: Disk, c: ChunkID) {
    !IsLive(env, d, c) && (c in d.st.locators ==> Swept(env, d, c) || Aged(env, d.st, c))
  }

  lemma DropLocatorOK(d: Disk, c: ChunkID)
    requires DiskOK(d)
    ensures DiskOK(DropLocator(d, c))
  {
  }

  /** Where a moved chunk now is: the same bytes, in a container that is young and not retired. */
  ghost predicate Relocates(env: Env, sum: Bytes -> Digest, d: Disk, c: ChunkID, loc: Locator, now: Time) {
    && c in d.st.locators && now > env.cutoff
    && loc.length > 0 && loc.container !in d.st.dead && loc.container < d.st.nextKey
    && (loc.container in d.st.sealed ==> d.st.sealed[loc.container] > env.cutoff)
    && Fetch(sum, d.st.objects, c, loc) == ReadChunk(sum, d.st, c)
  }

  lemma MoveLocatorKeeps(env: Env, sum: Bytes -> Digest, d: Disk, c: ChunkID, loc: Locator, now: Time, x: ChunkID)
    requires Relocates(env, sum, d, c, loc, now) && KeepsIn(env, d, d.st, c)
    ensures KeepsIn(env, d, PutLocator(d.st, c, loc, now), x) <==> KeepsIn(env, d, d.st, x)
  {
  }

  lemma MoveLocatorKeepsView(env: Env, sum: Bytes -> Digest, d: Disk, c: ChunkID, loc: Locator, now: Time)
    requires Relocates(env, sum, d, c, loc, now) && Keeps(env, d, c)
    ensures ViewOf(env, sum, MoveLocator(d, c, loc, now)) == ViewOf(env, sum, d)
  {
    var d' := MoveLocator(d, c, loc, now);
    forall x ensures KeepsIn(env, d, d'.st, x) <==> KeepsIn(env, d, d.st, x) {
      MoveLocatorKeeps(env, sum, d, c, loc, now, x);
    }
    forall x ensures ReadChunk(sum, d'.st, x) == ReadChunk(sum, d.st, x) {
    }
    StoreChangeKeepsView(env, sum, d, d');
  }

  lemma MoveLocatorOK(env: Env, sum: Bytes -> Digest, d: Disk, c: ChunkID, loc: Locator, now: Time)
    requires DiskOK(d) && Relocates(env, sum, d, c, loc, now)
    ensures DiskOK(MoveLocator(d, c, loc, now))
  {
  }

  // --- containers --------------------------------------------------------------------

  lemma AddObjectKeepsView(env: Env, sum: Bytes -> Digest, d: Disk, data: Bytes)
    requires DiskOK(d)
    ensures ViewOf(env, sum, AddObject(d, data)) == ViewOf(env, sum, d) && DiskOK(AddObject(d, data))
  {
    var d' := AddObject(d, data);
    forall c ensures ReadChunk(sum, d'.st, c) == ReadChunk(sum, d.st, c) {
    }
    StoreChangeKeepsView(env, sum, d, d');
  }

  lemma MarkDeadKeepsView(env: Env, sum: Bytes -> Digest, d: Disk, k: Key, at: Time)
    requires DiskOK(d) && k < d.st.nextKey && forall c :: c in d.st.locators ==> d.st.locators[c].container != k
    ensures ViewOf(env, sum, MarkDead(d, k, at)) == ViewOf(env, sum, d) && DiskOK(MarkDead(d, k, at))
  {
    StoreChangeKeepsView(env, sum, d, MarkDead(d, k, at));
  }

  lemma DropObjectReads(sum: Bytes -> Digest, d: Disk, k: Key, c: ChunkID)
    requires StoreOK(d.st) && k in d.st.dead
    ensures ReadChunk(sum, DropObject(d, k).st, c) == ReadChunk(sum, d.st, c)
  {
  }

  lemma DropObjectKeepsView(env: Env, sum: Bytes -> Digest, d: Disk, k: Key)
    requires DiskOK(d) && k in d.st.dead
    ensures ViewOf(env, sum, DropObject(d, k)) == ViewOf(env, sum, d) && DiskOK(DropObject(d, k))
  {
    hide ViewOf, ReadChunk, Inv, IsLive, Swept;
    var d' := DropObject(d, k);
    forall c ensures ReadChunk(sum, d'.st, c) == ReadChunk(sum, d.st, c) {
      DropObjectReads(sum, d, k, c);
    }
    StoreChangeKeepsView(env, sum, d, d');
  }

  lemma UnmarkDeadKeepsView(env: Env, sum: Bytes -> Digest, d: Disk, k: Key)
    requires DiskOK(d)
    ensures ViewOf(env, sum, UnmarkDead(d, k)) == ViewOf(env, sum, d) && DiskOK(UnmarkDead(d, k))
  {
    StoreChangeKeepsView(env, sum, d, UnmarkDead(d, k));
  }

  // --- inodes and graves ---------------------------------------------------------------

  /** An expired inode's record goes once none of its chunks is both located and unmarked. */
  ghost predicate Emptied(env: Env, d: Disk, g: Grave) {
    && g in d.ns.graves && Expired(env, g) && g.id in d.ns.inode
    && forall c :: Needs(d, g.id, c) ==> IsLive(env, d, c) || c !in d.st.locators
  }

  lemma DropInodeRefs(env: Env, d: Disk, g: Grave, c: ChunkID)
    requires DiskOK(d) && Emptied(env, d, g)
    ensures var d' := DropInode(d, g.id);
            && (IsLive(env, d', c) <==> IsLive(env, d, c))
            && (Keeps(env, d', c) <==> Keeps(env, d, c))
  {
    var d' := DropInode(d, g.id);
    ExpiredIsUnprotected(env, d.ns, g);
    assert forall id :: id != g.id ==> (Protected(env, d'.ns, id) <==> Protected(env, d.ns, id));
    forall id | id in d.ns.inode && id != g.id ensures Needs(d', id, c) <==> Needs(d, id, c) {
      NeedsSame(d, d', id, c);
    }
    assert IsLive(env, d', c) <==> IsLive(env, d, c);
    if c in d.st.locators && !IsLive(env, d, c) {
      assert Swept(env, d', c) <==> Swept(env, d, c);
    }
  }

  lemma DropInodeKeepsStays(env: Env, d: Disk, g: Grave)
    requires g in d.ns.graves && Expired(env, g)
    ensures var s := d.ns; var s' := DeleteInode(s, g.id);
            (map id | id in s'.inode && Stays(env, s', id) :: s'.inode[id]) == (map id | id in s.inode && Stays(env, s, id) :: s.inode[id])
  {
    assert !Stays(env, d.ns, g.id);
    assert forall id :: id != g.id ==> (Stays(env, DeleteInode(d.ns, g.id), id) <==> Stays(env, d.ns, id));
  }

  lemma DropInodeKeepsView(env: Env, sum: Bytes -> Digest, d: Disk, g: Grave)
    requires DiskOK(d) && Emptied(env, d, g)
    ensures ViewOf(env, sum, DropInode(d, g.id)) == ViewOf(env, sum, d)
  {
    var d' := DropInode(d, g.id);
    forall c ensures (IsLive(env, d', c) <==> IsLive(env, d, c)) && (Keeps(env, d', c) <==> Keeps(env, d, c)) {
      DropInodeRefs(env, d, g, c);
    }
    assert ViewOf(env, sum, d').chunks == ViewOf(env, sum, d).chunks;
    assert ViewOf(env, sum, d').readable == ViewOf(env, sum, d).readable;
    DropInodeKeepsStays(env, d, g);
  }

  lemma DropInodeOK(env: Env, d: Disk, g: Grave)
    requires DiskOK(d) && g in d.ns.graves
    ensures DiskOK(DropInode(d, g.id))
  {
    assert IsGraved(d.ns, g.id);
    ReclaimKeepsInv(d.ns, OpReclaim(g.id));
  }

  lemma DropGraveRefs(env: Env, d: Disk, g: Grave, c: ChunkID)
    requires Expired(env, g) && g.id !in d.ns.inode
    ensures var d' := DropGrave(d, g);
            && (IsLive(env, d', c) <==> IsLive(env, d, c))
            && (Keeps(env, d', c) <==> Keeps(env, d, c))
  {
    var d' := DropGrave(d, g);
    forall id ensures InGrace(env, d'.ns, id) <==> InGrace(env, d.ns, id) {
      if InGrace(env, d.ns, id) {
        var h :| h in d.ns.graves && h.id == id && !Expired(env, h);
        assert h in d'.ns.graves;
      }
    }
    forall id ensures Needs(d', id, c) <==> Needs(d, id, c) {
    }
    assert Swept(env, d', c) <==> Swept(env, d, c);
    assert IsLive(env, d', c) <==> IsLive(env, d, c);
  }

  lemma DropGraveKeepsView(env: Env, sum: Bytes -> Digest, d: Disk, g: Grave)
    requires Expired(env, g) && g.id !in d.ns.inode
    ensures ViewOf(env, sum, DropGrave(d, g)) == ViewOf(env, sum, d)
  {
    var d' := DropGrave(d, g);
    forall c ensures (IsLive(env, d', c) <==> IsLive(env, d, c)) && (Keeps(env, d', c) <==> Keeps(env, d, c)) {
      DropGraveRefs(env, d, g, c);
    }
    assert ViewOf(env, sum, d').chunks == ViewOf(env, sum, d).chunks;
    assert ViewOf(env, sum, d').readable == ViewOf(env, sum, d).readable;
    assert ViewOf(env, sum, d').graves == ViewOf(env, sum, d).graves;
    forall id | id in d.ns.inode ensures Stays(env, d'.ns, id) <==> Stays(env, d.ns, id) {
      assert forall h :: h in d.ns.graves && h.id == id ==> h in d'.ns.graves;
    }
    assert ViewOf(env, sum, d').inode == ViewOf(env, sum, d).inode;
  }

  lemma DropGraveOK(d: Disk, g: Grave)
    requires DiskOK(d) && g.id !in d.ns.inode
    ensures DiskOK(DropGrave(d, g))
  {
    ForgetKeepsInv(d.ns, OpForget(g));
  }
}
