/** Containers, locators and manifests: where chunk bytes live and how a content reference is read back. */
module Storage {
  import opened Base
  import opened Manifest
  import opened Namespace

  /**
   A container's object key. The source draws a random 128-bit ID for each; here keys are drawn in order, which
   keeps only what matters of that: a key is never used twice.
   */
  type Key = nat

  datatype Locator = Locator(container: Key, offset: nat, length: nat)

  /** The locator, container and dead-container buckets, and the backend's container and manifest objects. */
  datatype Store = Store(
    locators: map<ChunkID, Locator>, sealed: map<Key, Time>, dead: map<Key, Time>,
    objects: map<Key, Bytes>, manifests: map<ManifestID, Bytes>, nextKey: Key)

  /** Fetch: the exact byte range, self-verified against the chunk ID. */
  function Fetch(sum: Bytes -> Digest, objects: map<Key, Bytes>, id: ChunkID, loc: Locator): Option<Bytes> {
    if loc.container in objects && loc.offset + loc.length <= |objects[loc.container]| then
      var data := objects[loc.container][loc.offset..loc.offset + loc.length];
      if sum(data) == id then Some(data) else None
    else None
  }

  /** What a reader that looks the chunk up now gets. */
  function ReadChunk(sum: Bytes -> Digest, st: Store, id: ChunkID): Option<Bytes> {
    if id in st.locators then Fetch(sum, st.objects, id, st.locators[id]) else None
  }

  function ReadEntries(sum: Bytes -> Digest, st: Store, es: seq<Entry>): Option<Bytes> {
    if es == [] then Some([])
    else match (ReadChunk(sum, st, es[0].chunkID), ReadEntries(sum, st, es[1..]))
      case (Some(b), Some(rest)) => if |b| == es[0].length then Some(b + rest) else None
      case _ => None
  }

  function GetManifest(st: Store, id: ManifestID): Option<Manifest> {
    if id in st.manifests && DecodeBytes(st.manifests[id]).Ok? then Some(DecodeBytes(st.manifests[id]).value) else None
  }

  /** The bytes a content reference stands for. */
  function ReadContent(sum: Bytes -> Digest, st: Store, c: Content): Option<Bytes> {
    match c
    case NoContent => Some([])
    case Inline(id) => ReadChunk(sum, st, id)
    case ByManifest(id) =>
      match GetManifest(st, id)
      case None => None
      case Some(m) => ReadEntries(sum, st, m.entries)
  }

  /** The chunks a content reference needs, or None when its manifest cannot be fetched. */
  function ChunkIDs(st: Store, c: Content): Option<seq<ChunkID>> {
    match c
    case NoContent => Some([])
    case Inline(id) => Some([id])
    case ByManifest(id) =>
      match GetManifest(st, id)
      case None => None
      case Some(m) => Some(seq(|m.entries|, i requires 0 <= i < |m.entries| => m.entries[i].chunkID))
  }

  /** Every locator resolves, to a non-empty range of a container that is not awaiting deletion. */
  ghost predicate ValidLocators(sum: Bytes -> Digest, st: Store) {
    forall id :: id in st.locators ==>
                   && st.locators[id].length > 0 && st.locators[id].container !in st.dead
                   && Fetch(sum, st.objects, id, st.locators[id]).Some?
  }

  ghost predicate KeysDrawn(st: Store) {
    && (forall k :: k in st.objects ==> k < st.nextKey)
    && (forall k :: k in st.dead ==> k < st.nextKey)
    && (forall k :: k in st.sealed ==> k < st.nextKey)
  }

  ghost predicate ValidManifests(sum: Bytes -> Digest, st: Store) {
    forall id :: id in st.manifests ==> sum(st.manifests[id]) == id
  }

  ghost predicate ValidStore(sum: Bytes -> Digest, st: Store) {
    ValidLocators(sum, st) && KeysDrawn(st) && ValidManifests(sum, st)
  }

  /** PutLocator: the binding, and the container's seal time if this is its first mention. */
  function PutLocator(st: Store, id: ChunkID, loc: Locator, now: Time): Store {
    st.(locators := st.locators[id := loc],
        sealed := if loc.container in st.sealed then st.sealed else st.sealed[loc.container := now])
  }

  /** A new container object under a key never used before. */
  function PutObject(st: Store, data: Bytes): Store {
    st.(objects := st.objects[st.nextKey := data], nextKey := st.nextKey + 1)
  }

  // --- seal times ---------------------------------------------------------------

  /**
   Seal times are kept, and a container that gets one is a new one and gets it from `since` on. Every chunk is where it
   was, or in a new container that has a seal time.
   */
  ghost predicate Seals(st: Store, st': Store, since: Time) {
    && st.nextKey <= st'.nextKey
    && (forall k :: k in st.sealed ==> k in st'.sealed && st'.sealed[k] == st.sealed[k])
    && (forall k :: k in st'.sealed && k !in st.sealed ==> k >= st.nextKey && st'.sealed[k] >= since)
    && (forall c :: c in st'.locators ==>
          || (c in st.locators && st'.locators[c].container == st.locators[c].container)
          || (st'.locators[c].container >= st.nextKey && st'.locators[c].container in st'.sealed))
  }

  /** No container got a seal time after `latest`. */
  ghost predicate SealedBy(st: Store, st': Store, latest: Time) {
    forall k :: k in st'.sealed && k !in st.sealed ==> st'.sealed[k] <= latest
  }

  lemma SealsNothing(st: Store, since: Time)
    ensures Seals(st, st, since)
  {
  }

  lemma SealsTwice(st: Store, st1: Store, st2: Store, since: Time, later: Time)
    requires Seals(st, st1, since) && Seals(st1, st2, later) && since <= later
    ensures Seals(st, st2, since)
  {
  }

  lemma SealsLess(st: Store, st1: Store, st2: Store, since: Time)
    requires Seals(st, st1, since) && st2.sealed == st1.sealed && st1.nextKey <= st2.nextKey
    requires forall c :: c in st2.locators ==> c in st1.locators && st2.locators[c] == st1.locators[c]
    ensures Seals(st, st2, since)
  {
  }

  // --- laws ---------------------------------------------------------------------

  /** Chunks that read the same make entry lists read the same. */
  lemma {:induction false} ReadEntriesAgree(sum: Bytes -> Digest, st: Store, st': Store, es: seq<Entry>)
    requires ReadEntries(sum, st, es).Some?
    requires forall i :: 0 <= i < |es| ==> ReadChunk(sum, st', es[i].chunkID) == ReadChunk(sum, st, es[i].chunkID)
    ensures ReadEntries(sum, st', es) == ReadEntries(sum, st, es)
  {
    if es != [] {
      assert ReadChunk(sum, st', es[0].chunkID) == ReadChunk(sum, st, es[0].chunkID);
      assert forall i :: 0 <= i < |es[1..]| ==> es[1..][i] == es[i + 1];
      ReadEntriesAgree(sum, st, st', es[1..]);
    }
  }

  /** Reading a content reference depends only on its manifest and its chunks. */
  lemma ReadContentAgrees(sum: Bytes -> Digest, st: Store, st': Store, c: Content)
    requires ReadContent(sum, st, c).Some? && (c.ByManifest? ==> c.manifest in st'.manifests && st'.manifests[c.manifest] == st.manifests[c.manifest])
    requires forall i :: 0 <= i < |ChunkIDs(st, c).value| ==>
                           ReadChunk(sum, st', ChunkIDs(st, c).value[i]) == ReadChunk(sum, st, ChunkIDs(st, c).value[i])
    ensures ReadContent(sum, st', c) == ReadContent(sum, st, c)
  {
    match c
    case NoContent =>
    case Inline(id) => assert ChunkIDs(st, c).value[0] == id;
    case ByManifest(id) =>
      var es := GetManifest(st, id).value.entries;
      forall i | 0 <= i < |es| ensures ReadChunk(sum, st', es[i].chunkID) == ReadChunk(sum, st, es[i].chunkID) {
        assert ChunkIDs(st, c).value[i] == es[i].chunkID;
      }
      ReadEntriesAgree(sum, st, st', es);
  }
}
