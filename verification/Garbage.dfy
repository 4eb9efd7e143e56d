/**
 What a sweep may and may not change. The view of a disk is everything a sweep must leave: the names, the inodes and
 graves that stay, the chunks that stay located, and the bytes each of those reads as. Each single write of a
 sweep is shown to leave the view as it was.
 */
module Garbage {
  import opened Base
  import opened Manifest
  import opened Namespace
  import opened TreeShape
  import opened Accounting
  import opened Histories
  import opened Storage

  datatype Disk = Disk(ns: NS, st: Store)

  /** One run of Sweep: its cutoff, its snapshot of open handles, and the packer's unsealed chunks. */
  datatype Env = Env(cutoff: Time, held: set<InodeID>, pending: set<ChunkID>)

  predicate Expired(env: Env, g: Grave) {
    g.at <= env.cutoff && g.id !in env.held
  }

  ghost predicate InGrace(env: Env, s: NS, id: InodeID) {
    exists g :: g in s.graves && g.id == id && !Expired(env, g)
  }

  /** Reachable from the root, or unlinked but still in grace or held open. */
  ghost predicate Protected(env: Env, s: NS, id: InodeID) {
    id in s.inode && (Within(s.dentry, ROOT, id) || InGrace(env, s, id))
  }

  predicate Needs(d: Disk, id: InodeID, c: ChunkID) {
    id in d.ns.inode && ChunkIDs(d.st, d.ns.inode[id].content).Some? && c in ChunkIDs(d.st, d.ns.inode[id].content).value
  }

  ghost predicate IsLive(env: Env, d: Disk, c: ChunkID) {
    c in env.pending || exists id :: Protected(env, d.ns, id) && Needs(d, id, c)
  }

  /** A chunk of some graveyard entry that is past grace and unpinned. */
  ghost predicate Swept(env: Env, d: Disk, c: ChunkID) {
    exists g :: g in d.ns.graves && Expired(env, g) && Needs(d, g.id, c)
  }

  /** The chunk's container is known to have been sealed by the cutoff. */
  predicate Aged(env: Env, st: Store, c: ChunkID) {
    c in st.locators && st.locators[c].container in st.sealed && st.sealed[st.locators[c].container] <= env.cutoff
  }

  /** A sweep leaves this chunk located. */
  ghost predicate Keeps(env: Env, d: Disk, c: ChunkID) {
    c in d.st.locators && (IsLive(env, d, c) || (!Swept(env, d, c) && !Aged(env, d.st, c)))
  }

  /** A sweep leaves this inode's record. */
  ghost predicate Stays(env: Env, s: NS, id: InodeID) {
    id in s.inode && forall g :: g in s.graves && g.id == id ==> !Expired(env, g)
  }

  datatype View = View(
    dentry: Dentries, manifests: map<ManifestID, Bytes>, graves: set<Grave>,
    inode: map<InodeID, InodeRecord>, chunks: set<ChunkID>, readable: map<ChunkID, Bytes>)

  ghost function ViewOf(env: Env, sum: Bytes -> Digest, d: Disk): View {
    View(d.ns.dentry, d.st.manifests,
         set g | g in d.ns.graves && !Expired(env, g),
         map id | id in d.ns.inode && Stays(env, d.ns, id) :: d.ns.inode[id],
         set c | c in d.st.locators && Keeps(env, d, c),
         map c | c in d.st.locators && Keeps(env, d, c) && ReadChunk(sum, d.st, c).Some? :: ReadChunk(sum, d.st, c).value)
  }

  // --- consistency of a disk ----------------------------------------------------------

  /** Locators point at non-empty ranges of containers that were drawn and are not retired. */
  ghost predicate StoreOK(st: Store) {
    && KeysDrawn(st)
    && forall c :: c in st.locators ==>
                     st.locators[c].length > 0 && st.locators[c].container !in st.dead && st.locators[c].container < st.nextKey
  }

  ghost predicate DirsBare(s: NS) {
    forall id :: id in s.inode && s.inode[id].isDir ==> s.inode[id].content == NoContent
  }

  ghost predicate DiskOK(d: Disk) {
    Inv(d.ns) && StoreOK(d.st) && DirsBare(d.ns)
  }

  /** A pinned inode is protected, whether it still has a name or not. */
  lemma PinnedIsProtected(env: Env, s: NS, id: InodeID)
    requires Inv(s) && id in s.inode && id in env.held
    ensures Protected(env, s, id)
  {
    VitalAt(s, id);
    ReachableIffNamed(s, id);
    if id != ROOT && !Named(s.dentry, id) {
      var g :| g in s.graves && g.id == id;
      assert !Expired(env, g);
    }
  }

  /** What has an expired grave has no name and no other grave: nothing protects it. */
  lemma ExpiredIsUnprotected(env: Env, s: NS, g: Grave)
    requires Inv(s) && g in s.graves && Expired(env, g)
    ensures !Protected(env, s, g.id) && (g.id in s.inode ==> !LiveDir(s, g.id))
  {
    if g.id in s.inode {
      VitalAt(s, g.id);
      ReachableIffNamed(s, g.id);
      assert Graved(BookOf(s).graves, g.id);
    }
  }

  lemma ProtectedStays(env: Env, s: NS, id: InodeID)
    requires Inv(s) && Protected(env, s, id)
    ensures Stays(env, s, id)
  {
    forall g | g in s.graves && g.id == id ensures !Expired(env, g) {
      if Expired(env, g) {
        ExpiredIsUnprotected(env, s, g);
      }
    }
  }

  // --- what an unchanged view means ---------------------------------------------------

  lemma ViewInode(env: Env, sum: Bytes -> Digest, d: Disk, d': Disk, id: InodeID)
    requires ViewOf(env, sum, d') == ViewOf(env, sum, d) && Stays(env, d.ns, id)
    ensures Stays(env, d'.ns, id) && d'.ns.inode[id] == d.ns.inode[id]
  {
    assert id in ViewOf(env, sum, d).inode;
    assert id in ViewOf(env, sum, d').inode;
    assert ViewOf(env, sum, d').inode[id] == ViewOf(env, sum, d).inode[id];
  }

  lemma ViewProtected(env: Env, sum: Bytes -> Digest, d: Disk, d': Disk, id: InodeID)
    requires Inv(d.ns) && ViewOf(env, sum, d') == ViewOf(env, sum, d) && Protected(env, d.ns, id)
    ensures Protected(env, d'.ns, id) && d'.ns.inode[id] == d.ns.inode[id]
  {
    ProtectedStays(env, d.ns, id);
    ViewInode(env, sum, d, d', id);
    if InGrace(env, d.ns, id) {
      var g :| g in d.ns.graves && g.id == id && !Expired(env, g);
      assert g in ViewOf(env, sum, d).graves;
      assert g in ViewOf(env, sum, d').graves;
    }
  }

  lemma ViewLive(env: Env, sum: Bytes -> Digest, d: Disk, d': Disk, c: ChunkID)
    requires Inv(d.ns) && ViewOf(env, sum, d') == ViewOf(env, sum, d) && IsLive(env, d, c)
    ensures IsLive(env, d', c)
  {
    if c !in env.pending {
      var id :| Protected(env, d.ns, id) && Needs(d, id, c);
      ViewProtected(env, sum, d, d', id);
      assert Needs(d', id, c);
    }
  }

  lemma ViewRead(env: Env, sum: Bytes -> Digest, d: Disk, d': Disk, c: ChunkID)
    requires ViewOf(env, sum, d') == ViewOf(env, sum, d) && Keeps(env, d, c) && ReadChunk(sum, d.st, c).Some?
    ensures ReadChunk(sum, d'.st, c) == ReadChunk(sum, d.st, c)
  {
    assert c in ViewOf(env, sum, d).readable;
    assert c in ViewOf(env, sum, d').readable;
    assert ViewOf(env, sum, d').readable[c] == ViewOf(env, sum, d).readable[c];
  }

  /** A protected file has the same record and reads back exactly the bytes it did. */
  lemma ProtectedReadsSame(env: Env, sum: Bytes -> Digest, d: Disk, d': Disk, id: InodeID)
    requires Inv(d.ns) && ViewOf(env, sum, d') == ViewOf(env, sum, d) && Protected(env, d.ns, id)
    requires ReadContent(sum, d.st, d.ns.inode[id].content).Some?
    ensures Protected(env, d'.ns, id) && d'.ns.inode[id] == d.ns.inode[id]
    ensures ReadContent(sum, d'.st, d.ns.inode[id].content) == ReadContent(sum, d.st, d.ns.inode[id].content)
  {
    ViewProtected(env, sum, d, d', id);
    var c := d.ns.inode[id].content;
    var ids := ChunkIDs(d.st, c).value;
    forall i | 0 <= i < |ids| ensures ReadChunk(sum, d'.st, ids[i]) == ReadChunk(sum, d.st, ids[i]) {
      assert Needs(d, id, ids[i]);
      NeededReads(sum, d.st, c, i);
      ViewRead(env, sum, d, d', ids[i]);
    }
    ReadContentAgrees(sum, d.st, d'.st, c);
  }

  lemma NeededReads(sum: Bytes -> Digest, st: Store, c: Content, i: nat)
    requires ReadContent(sum, st, c).Some? && ChunkIDs(st, c).Some? && i < |ChunkIDs(st, c).value|
    ensures ReadChunk(sum, st, ChunkIDs(st, c).value[i]).Some?
  {
    if c.ByManifest? {
      var es := GetManifest(st, c.manifest).value.entries;
      EntryReads(sum, st, es, i);
    }
  }

  lemma {:induction false} EntryReads(sum: Bytes -> Digest, st: Store, es: seq<Entry>, i: nat)
    requires ReadEntries(sum, st, es).Some? && i < |es|
    ensures ReadChunk(sum, st, es[i].chunkID).Some?
  {
    if i > 0 {
      EntryReads(sum, st, es[1..], i - 1);
    }
  }

  // --- the outcome of a sweep -----------------------------------------------------------

  /** No more to do: every grave, inode and located chunk left is one that stays. */
  ghost predicate Clean(env: Env, d: Disk) {
    && (forall g :: g in d.ns.graves ==> !Expired(env, g))
    && (forall id :: id in d.ns.inode ==> Stays(env, d.ns, id))
    && (forall c :: c in d.st.locators ==> Keeps(env, d, c))
  }

  /** A finished sweep leaves exactly the graves, inodes and located chunks its starting disk says should stay. */
  lemma CleanIsExact(env: Env, sum: Bytes -> Digest, d: Disk, d': Disk)
    requires ViewOf(env, sum, d') == ViewOf(env, sum, d) && Clean(env, d')
    ensures d'.ns.graves == (set g | g in d.ns.graves && !Expired(env, g))
    ensures d'.ns.inode == (map id | id in d.ns.inode && Stays(env, d.ns, id) :: d.ns.inode[id])
    ensures d'.st.locators.Keys == (set c | c in d.st.locators && Keeps(env, d, c))
  {
    var v, v' := ViewOf(env, sum, d), ViewOf(env, sum, d');
    assert d'.ns.graves == v'.graves;
    assert d'.ns.inode == v'.inode;
    assert d'.st.locators.Keys == v'.chunks;
  }

  /**
   Stopping after any write and sweeping again from there, at the same time with the same pins, ends in the same
   inodes, graveyard and set of located chunks as the sweep that was not stopped.
   */
  lemma InterruptedSweepConverges(env: Env, sum: Bytes -> Digest, start: Disk, stopped: Disk, once: Disk, resumed: Disk)
    requires ViewOf(env, sum, stopped) == ViewOf(env, sum, start)
    requires ViewOf(env, sum, once) == ViewOf(env, sum, start) && Clean(env, once)
    requires ViewOf(env, sum, resumed) == ViewOf(env, sum, stopped) && Clean(env, resumed)
    ensures resumed.ns.inode == once.ns.inode && resumed.ns.graves == once.ns.graves && resumed.ns.dentry == once.ns.dentry
    ensures resumed.st.locators.Keys == once.st.locators.Keys
  {
    CleanIsExact(env, sum, start, once);
    CleanIsExact(env, sum, start, resumed);
  }
}
