/** Storing a file's content: chunk, skip what is already located, pack or write singly, reference (pkg/repo). */
module ContentPath {
  import opened Base
  import opened Manifest
  import opened Namespace
  import opened Storage
  import opened Chunking

  /** manifest.New: lengths and totals are cut to the width of their fields, as Go's conversions do. */
  function NewManifest(chunks: seq<Chunk>, chunkSize: nat, total: nat): (m: Manifest)
    ensures |m.entries| == |chunks|
  {
    Manifest(FORMAT_VERSION, total % Pow256(8), chunkSize % Pow256(4),
             seq(|chunks|, i requires 0 <= i < |chunks| => Entry(chunks[i].id, |chunks[i].data| % Pow256(4), 0)))
  }

  /** The number of chunks and the longest chunk fit their fields: a caller knows this from the two sizes. */
  ghost predicate WidthsFit(data: Bytes, size: nat)
    requires size > 0
  {
    |Split(data, size)| < Pow256(4) && Min(size, |data|) < Pow256(4)
  }

  /** No chunk of the file, and not its manifest, shares its hash with other bytes. */
  ghost predicate CollisionFree(sum: Bytes -> Digest, data: Bytes, size: nat)
    requires size > 0
  {
    && (forall i :: 0 <= i < |Split(data, size)| ==> NoCollision(sum, Split(data, size)[i]))
    && NoCollision(sum, Encode(NewManifest(Chunks(sum, Split(data, size)), size, |data|)))
  }

  /** Nothing located, referenced or stored was lost. */
  ghost predicate Kept(st: Store, st': Store) {
    && st.locators.Keys <= st'.locators.Keys
    && (forall id :: id in st.manifests ==> id in st'.manifests && st'.manifests[id] == st.manifests[id])
    && (forall k :: k in st.objects ==> k in st'.objects && st'.objects[k] == st.objects[k])
    && st'.dead == st.dead && st.nextKey <= st'.nextKey
  }

  /**
   Seal times: a container that had one keeps it, one that got one got it now, and every chunk that was located anew is
   in a container that has one, and in a new one.
   */
  ghost predicate SealedNow(st: Store, st': Store, now: Time) {
    && (forall k :: k in st.sealed ==> k in st'.sealed && st'.sealed[k] == st.sealed[k])
    && (forall k :: k in st'.sealed && k !in st.sealed ==> st'.sealed[k] == now && k >= st.nextKey)
    && (forall c :: c in st'.locators ==>
          || (c in st.locators && st.locators[c] == st'.locators[c])
          || (st'.locators[c].container in st'.sealed && st'.locators[c].container >= st.nextKey))
    && st.nextKey <= st'.nextKey
  }

  lemma SealedNowSeals(st: Store, st': Store, now: Time)
    requires SealedNow(st, st', now)
    ensures Seals(st, st', now) && SealedBy(st, st', now)
  {
  }

  lemma SealedTwice(st: Store, st1: Store, st2: Store, now: Time)
    requires SealedNow(st, st1, now) && SealedNow(st1, st2, now)
    ensures SealedNow(st, st2, now)
  {
  }

  lemma PutLocatorSeals(st0: Store, st: Store, id: ChunkID, loc: Locator, now: Time)
    requires SealedNow(st0, st, now) && loc.container >= st0.nextKey
    ensures SealedNow(st0, PutLocator(st, id, loc, now), now)
  {
  }

  lemma KeptSame(st: Store)
    ensures Kept(st, st)
  {
  }

  lemma KeptTwice(st: Store, st1: Store, st2: Store)
    requires Kept(st, st1) && Kept(st1, st2)
    ensures Kept(st, st2)
  {
  }

  lemma ReferenceKept(sum: Bytes -> Digest, st: Store, st': Store, data: Bytes, size: nat, c: Content)
    requires size > 0 && Kept(st, st') && Refers(sum, st, data, size, c)
    ensures Refers(sum, st', data, size, c)
  {
  }

  /** The chunk is alone in its container. */
  ghost predicate Alone(st: Store, id: ChunkID) {
    && id in st.locators && st.locators[id].container in st.objects
    && st.locators[id].offset == 0 && st.locators[id].length == |st.objects[st.locators[id].container]|
  }

  /**
   Large files' chunks that were new have containers of their own; small files' chunks share containers, none of which
   is sealed before it has reached the seal size.
   */
  ghost predicate Placed(st: Store, st': Store, singleObject: bool, sealSize: nat) {
    if singleObject then forall id :: id in st'.locators ==> id in st.locators || Alone(st', id)
    else forall k :: k in st'.objects && k !in st.objects ==> |st'.objects[k]| >= sealSize
  }

  lemma PlacedManifests(st: Store, st1: Store, st2: Store, singleObject: bool, sealSize: nat)
    requires Placed(st, st1, singleObject, sealSize) && st2 == st1.(manifests := st2.manifests)
    ensures Placed(st, st2, singleObject, sealSize)
  {
  }

  lemma PlacedNone(st: Store, singleObject: bool, sealSize: nat)
    ensures Placed(st, st, singleObject, sealSize)
  {
  }

  /** What storing one chunk did to the store: nothing, a container of its own, or at most one sealed container. */
  ghost predicate StoredOne(st1: Store, st2: Store, c: Chunk, singleObject: bool, sealSize: nat) {
    if c.id in st1.locators then st2 == st1
    else if singleObject then
      && st2.objects == st1.objects[st1.nextKey := c.data] && st2.locators == st1.locators[c.id := Locator(st1.nextKey, 0, |c.data|)]
    else st2 == st1 || (st1.nextKey in st2.objects && |st2.objects[st1.nextKey]| >= sealSize && st2.objects.Keys == st1.objects.Keys + {st1.nextKey})
  }

  lemma SplitNone(size: nat)
    requires size > 0
    ensures Split([], size) == []
  {
  }

  lemma StoredAgain(st1: Store, st2: Store, c: Chunk, singleObject: bool, sealSize: nat)
    requires StoredOne(st1, st2, c, singleObject, sealSize) && c.id in st1.locators
    ensures st2 == st1
  {
  }

  lemma PlacedNext(st: Store, st1: Store, st2: Store, c: Chunk, singleObject: bool, sealSize: nat)
    requires Placed(st, st1, singleObject, sealSize) && Kept(st, st1) && Kept(st1, st2)
    requires StoredOne(st1, st2, c, singleObject, sealSize)
    ensures Placed(st, st2, singleObject, sealSize)
  {
  }

  lemma SealedSame(st: Store, now: Time)
    ensures SealedNow(st, st, now)
  {
  }

  lemma SealedManifests(st: Store, st': Store, now: Time)
    requires st' == st.(manifests := st'.manifests)
    ensures SealedNow(st, st', now)
  {
  }

  lemma PutObjectSeals(st: Store, data: Bytes, now: Time)
    ensures SealedNow(st, PutObject(st, data), now)
  {
  }

  /** How far a container's locators are registered; `base` is the store before the container was drawn. */
  ghost predicate Registering(base: Store, st0: Store, st: Store, locs: map<ChunkID, Locator>, todo: set<ChunkID>, now: Time) {
    && Kept(st0, st) && st.manifests == st0.manifests && st.objects == st0.objects && st.nextKey == st0.nextKey
    && SealedNow(base, st, now) && st.locators == st0.locators + (locs - todo)
  }

  lemma RegisterStarts(base: Store, st: Store, locs: map<ChunkID, Locator>, now: Time)
    requires SealedNow(base, st, now)
    ensures Registering(base, st, st, locs, locs.Keys, now)
  {
    assert locs - locs.Keys == map[];
  }

  lemma RegisterNext(sum: Bytes -> Digest, base: Store, st0: Store, st: Store, key: Key, data: Bytes, locs: map<ChunkID, Locator>,
                     todo: set<ChunkID>, id: ChunkID, now: Time)
    requires ValidStore(sum, st) && Registering(base, st0, st, locs, todo, now) && id in todo && todo <= locs.Keys && key >= base.nextKey
    requires key in st0.objects && st0.objects[key] == data && key !in st0.dead && locs[id].container == key
    requires Holds(sum, data, Pending(id, locs[id].offset, locs[id].length))
    ensures ValidStore(sum, PutLocator(st, id, locs[id], now)) && Registering(base, st0, PutLocator(st, id, locs[id], now), locs, todo - {id}, now)
  {
    hide SealedNow, ValidStore;
    PutLocatorValid(sum, st, id, locs[id], now);
    PutLocatorSeals(base, st, id, locs[id], now);
    assert (locs - todo)[id := locs[id]] == locs - (todo - {id});
    assert (st0.locators + (locs - todo))[id := locs[id]] == st0.locators + (locs - (todo - {id}));
  }

  lemma RegisterEnds(base: Store, st0: Store, st: Store, locs: map<ChunkID, Locator>, now: Time)
    requires Registering(base, st0, st, locs, {}, now)
    ensures Kept(st0, st) && st.manifests == st0.manifests && SealedNow(base, st, now) && st.locators == st0.locators + locs
    ensures st.objects == st0.objects && st.nextKey == st0.nextKey
  {
    assert locs - {} == locs;
  }

  /** A chunk without a hash collision reads the same in every valid store that locates it. */
  lemma KeptReads(sum: Bytes -> Digest, st: Store, st': Store, id: ChunkID)
    requires ValidStore(sum, st) && ValidStore(sum, st') && Kept(st, st') && id in st.locators
    requires NoCollision(sum, ReadChunk(sum, st, id).value)
    ensures ReadChunk(sum, st', id) == ReadChunk(sum, st, id)
  {
  }

  // --- single steps on the store -------------------------------------------------------

  lemma PutObjectValid(sum: Bytes -> Digest, st: Store, data: Bytes)
    requires ValidStore(sum, st)
    ensures ValidStore(sum, PutObject(st, data)) && Kept(st, PutObject(st, data))
  {
    var st' := PutObject(st, data);
    forall id | id in st'.locators ensures Fetch(sum, st'.objects, id, st'.locators[id]).Some? {
      assert Fetch(sum, st'.objects, id, st.locators[id]) == Fetch(sum, st.objects, id, st.locators[id]);
    }
  }

  lemma PutLocatorValid(sum: Bytes -> Digest, st: Store, id: ChunkID, loc: Locator, now: Time)
    requires ValidStore(sum, st) && loc.length > 0 && loc.container !in st.dead
    requires Fetch(sum, st.objects, id, loc).Some?
    ensures ValidStore(sum, PutLocator(st, id, loc, now)) && Kept(st, PutLocator(st, id, loc, now))
  {
  }

  /** The reference names the chunks of `data`, in order. */
  ghost predicate Refers(sum: Bytes -> Digest, st: Store, data: Bytes, size: nat, c: Content)
    requires size > 0
  {
    match c
    case NoContent => data == []
    case Inline(id) => id == sum(data) && Split(data, size) == [data]
    case ByManifest(id) =>
      var m := NewManifest(Chunks(sum, Split(data, size)), size, |data|);
      data != [] && id == sum(Encode(m)) && id in st.manifests && (NoCollision(sum, Encode(m)) ==> st.manifests[id] == Encode(m))
  }

  class Repo {
    const sum: Bytes -> Digest
    const chunkSize: nat
    const singleThreshold: int
    const packer: Packer
    var st: Store

    ghost predicate Valid()
      reads this, packer
    {
      chunkSize > 0 && ValidStore(sum, st) && AllHeld(sum, packer.buf, packer.pending)
    }

    /** Located, or waiting in the packer for its container to be sealed. */
    ghost function Pledged(): set<ChunkID>
      reads this, packer
    {
      st.locators.Keys + PendingIDs(packer.pending)
    }

    constructor (sum: Bytes -> Digest, chunkSize: int, singleThreshold: int, packer: Packer)
      requires AllHeld(sum, packer.buf, packer.pending)
      ensures Valid() && this.sum == sum && this.chunkSize == EffectiveSize(chunkSize)
      ensures this.packer == packer && this.singleThreshold == singleThreshold
      ensures st == Store(map[], map[], map[], map[], map[], 0)
    {
      this.sum, this.chunkSize, this.singleThreshold := sum, EffectiveSize(chunkSize), singleThreshold;
      this.packer := packer;
      st := Store(map[], map[], map[], map[], map[], 0);
    }

    /** The locators of a sealed container, one PutLocator transaction each. */
    method Register(key: Key, data: Bytes, locs: map<ChunkID, Locator>, now: Time, ghost base: Store)
      requires Valid() && SealedNow(base, st, now) && key >= base.nextKey && key in st.objects && st.objects[key] == data && key !in st.dead
      requires forall id :: id in locs ==> locs[id].container == key
                                           && Holds(sum, data, Pending(id, locs[id].offset, locs[id].length))
      modifies this`st
      ensures Valid() && Kept(old(st), st) && st.manifests == old(st).manifests && SealedNow(base, st, now)
      ensures st.locators == old(st).locators + locs && st.objects == old(st).objects && st.nextKey == old(st).nextKey
    {
      hide Kept, ValidStore, Registering, Fetch;
      var todo := locs.Keys;
      ghost var st0 := st;
      RegisterStarts(base, st, locs, now);
      while todo != {}
        invariant todo <= locs.Keys && ValidStore(sum, st) && Registering(base, st0, st, locs, todo, now)
        decreases |todo|
      {
        var id :| id in todo;
        RegisterNext(sum, base, st0, st, key, data, locs, todo, id, now);
        st := PutLocator(st, id, locs[id], now);
        todo := todo - {id};
      }
      RegisterEnds(base, st0, st, locs, now);
    }

    method FlushPacker(now: Time)
      requires Valid()
      modifies this, packer
      ensures Valid() && Kept(old(st), st) && st.manifests == old(st).manifests && packer.buf == [] && packer.pending == []
      ensures old(Pledged()) <= st.locators.Keys && SealedNow(old(st), st, now)
      ensures old(packer.buf) == [] ==> st == old(st)
      ensures old(packer.buf) != [] ==>
                && st.objects == old(st).objects[old(st).nextKey := old(packer.buf)] && st.nextKey == old(st).nextKey + 1
                && forall id :: id in st.locators ==>
                     if id in PendingIDs(old(packer.pending)) then
                       && st.locators[id].container == old(st).nextKey
                       && Pending(id, st.locators[id].offset, st.locators[id].length) in old(packer.pending)
                     else id in old(st).locators && st.locators[id] == old(st).locators[id]
    {
      var key := st.nextKey;
      var data, locs := packer.Seal(sum, key);
      if data == [] { return; }
      PutObjectValid(sum, st, data);
      PutObjectSeals(st, data, now);
      st := PutObject(st, data);
      Register(key, data, locs, now, old(st));
    }

    /** A chunk as a container of its own. */
    method StoreSingle(c: Chunk, now: Time)
      requires Valid() && c.data != [] && c.id == sum(c.data)
      modifies this`st
      ensures Valid() && Kept(old(st), st) && st.manifests == old(st).manifests && SealedNow(old(st), st, now)
      ensures st.objects == old(st).objects[old(st).nextKey := c.data] && st.nextKey == old(st).nextKey + 1
      ensures st.locators == old(st).locators[c.id := Locator(old(st).nextKey, 0, |c.data|)]
    {
      hide ValidLocators, ValidManifests, SealedNow;
      var key := st.nextKey;
      PutObjectValid(sum, st, c.data);
      PutObjectSeals(st, c.data, now);
      st := PutObject(st, c.data);
      assert st.objects[key][0..0 + |c.data|] == c.data;
      PutLocatorValid(sum, st, c.id, Locator(key, 0, |c.data|), now);
      PutLocatorSeals(old(st), st, c.id, Locator(key, 0, |c.data|), now);
      st := PutLocator(st, c.id, Locator(key, 0, |c.data|), now);
    }

    /** A chunk into the shared container, which is sealed once it is large enough. */
    method StorePacked(c: Chunk, now: Time)
      requires Valid() && c.data != [] && c.id == sum(c.data)
      modifies this, packer
      ensures Valid() && Kept(old(st), st) && st.manifests == old(st).manifests && SealedNow(old(st), st, now)
      ensures old(Pledged()) + {c.id} <= Pledged()
      ensures if st == old(st) then |packer.buf| < packer.sealSize && |packer.pending| == |old(packer.pending)| + 1
              else
                && packer.buf == [] && packer.pending == [] && st.objects.Keys == old(st).objects.Keys + {old(st).nextKey}
                && |st.objects[old(st).nextKey]| >= packer.sealSize
    {
      hide ValidLocators, ValidManifests, SealedNow;
      SealedSame(st, now);
      ghost var pending := packer.pending;
      packer.Add(sum, c);
      assert packer.pending[|pending|].id == c.id && packer.pending[..|pending|] == pending;
      assert PendingIDs(pending) + {c.id} <= PendingIDs(packer.pending);
      if packer.Full() {
        FlushPacker(now);
      }
    }

    /** A chunk that is located is not stored again. */
    method StoreChunk(c: Chunk, singleObject: bool, now: Time)
      requires Valid() && c.data != [] && c.id == sum(c.data)
      modifies this, packer
      ensures Valid() && Kept(old(st), st) && st.manifests == old(st).manifests && SealedNow(old(st), st, now)
      ensures old(Pledged()) + {c.id} <= Pledged()
      ensures StoredOne(old(st), st, c, singleObject, packer.sealSize)
      ensures c.id in old(st).locators || singleObject ==> packer.buf == old(packer.buf) && packer.pending == old(packer.pending)
      ensures c.id !in old(st).locators && !singleObject ==>
                if st == old(st) then |packer.buf| < packer.sealSize && |packer.pending| == |old(packer.pending)| + 1
                else packer.buf == [] && packer.pending == []
    {
      hide SealedNow, ValidStore, AllHeld;
      SealedSame(st, now);
      if c.id in st.locators { return; }
      if singleObject {
        StoreSingle(c, now);
      } else {
        StorePacked(c, now);
      }
    }

    method PutManifest(m: Manifest) returns (id: ManifestID)
      requires Valid()
      modifies this`st
      ensures Valid() && Kept(old(st), st) && st == old(st).(manifests := st.manifests) && id == sum(Encode(m)) && id in st.manifests
      ensures NoCollision(sum, Encode(m)) ==> st.manifests[id] == Encode(m)
    {
      id := sum(Encode(m));
      if id !in st.manifests {
        st := st.(manifests := st.manifests[id := Encode(m)]);
      }
    }

    method StoreChunks(chunks: seq<Chunk>, singleObject: bool, now: Time)
      requires Valid() && forall i :: 0 <= i < |chunks| ==> chunks[i].data != [] && chunks[i].id == sum(chunks[i].data)
      modifies this, packer
      ensures Valid() && Kept(old(st), st)
      ensures forall i :: 0 <= i < |chunks| ==> chunks[i].id in Pledged()
      ensures SealedNow(old(st), st, now) && old(Pledged()) <= Pledged()
      ensures (forall i :: 0 <= i < |chunks| ==> chunks[i].id in old(st).locators) ==>
                st == old(st) && packer.buf == old(packer.buf) && packer.pending == old(packer.pending)
      ensures Placed(old(st), st, singleObject, packer.sealSize)
      ensures singleObject ==> packer.buf == old(packer.buf) && packer.pending == old(packer.pending)
    {
      hide ValidStore, SealedNow, Placed, AllHeld, Kept, StoredOne;
      PlacedNone(st, singleObject, packer.sealSize);
      SealedSame(st, now);
      KeptSame(st);
      for i := 0 to |chunks|
        invariant Valid() && Kept(old(st), st) && SealedNow(old(st), st, now) && old(Pledged()) <= Pledged()
        invariant forall j :: 0 <= j < i ==> chunks[j].id in Pledged()
        invariant (forall j :: 0 <= j < |chunks| ==> chunks[j].id in old(st).locators) ==>
                    st == old(st) && packer.buf == old(packer.buf) && packer.pending == old(packer.pending)
        invariant Placed(old(st), st, singleObject, packer.sealSize)
        invariant singleObject ==> packer.buf == old(packer.buf) && packer.pending == old(packer.pending)
      {
        ghost var st1 := st;
        StoreChunk(chunks[i], singleObject, now);
        SealedTwice(old(st), st1, st, now);
        KeptTwice(old(st), st1, st);
        if chunks[i].id in st1.locators { StoredAgain(st1, st, chunks[i], singleObject, packer.sealSize); }
        PlacedNext(old(st), st1, st, chunks[i], singleObject, packer.sealSize);
      }
    }

    /** The content is stored or pledged, and the reference names exactly its chunks in order. */
    method StoreContent(data: Bytes, now: Time) returns (c: Content)
      requires Valid()
      modifies this, packer
      ensures Valid() && Kept(old(st), st)
      ensures var chunks := Chunks(sum, Split(data, chunkSize));
              forall i :: 0 <= i < |chunks| ==> chunks[i].id in Pledged()
      ensures SealedNow(old(st), st, now) && old(Pledged()) <= Pledged()
      ensures AllLocated(sum, old(st), data, chunkSize) ==>
                st == old(st).(manifests := st.manifests) && packer.buf == old(packer.buf) && packer.pending == old(packer.pending)
      ensures Placed(old(st), st, |data| >= singleThreshold, packer.sealSize)
      ensures |data| >= singleThreshold ==> packer.buf == old(packer.buf) && packer.pending == old(packer.pending)
      ensures Refers(sum, st, data, chunkSize, c)
      ensures c.ByManifest? <==> data != [] && (|Split(data, chunkSize)| != 1 || |data| >= singleThreshold)
    {
      hide SealedNow, ValidStore, AllHeld, Kept, Encode, Placed, Split, NoCollision, NewManifest;
      SealedSame(st, now);
      KeptSame(st);
      PlacedNone(st, |data| >= singleThreshold, packer.sealSize);
      SplitNone(chunkSize);
      if |data| == 0 { return NoContent; }
      var single := |data| >= singleThreshold;
      var chunks := SplitAll(sum, data, chunkSize);
      assert forall i :: 0 <= i < |chunks| ==> chunks[i].data != [] by {
        SplitLaws(data, chunkSize);
      }
      StoreChunks(chunks, single, now);
      if |chunks| == 1 && !single {
        LonePiece(data, chunkSize);
        return Inline(chunks[0].id);
      }
      ghost var st1 := st;
      var id := PutManifest(NewManifest(chunks, chunkSize, |data|));
      SealedManifests(st1, st, now);
      PlacedManifests(old(st), st1, st, single, packer.sealSize);
      SealedTwice(old(st), st1, st, now);
      KeptTwice(old(st), st1, st);
      return ByManifest(id);
    }

    /**
     A commit's storage half. Chunks that are located already are not stored again. Once the packer is flushed every chunk
     is located, and the reference reads back as the
     data: always if it is not a manifest, and otherwise exactly if the manifest's fields hold what was put in them.
     */
    method StoreAndFlush(data: Bytes, now: Time) returns (c: Content)
      requires Valid()
      modifies this, packer
      ensures Valid() && Kept(old(st), st) && Refers(sum, st, data, chunkSize, c) && AllLocated(sum, st, data, chunkSize)
      ensures c.ByManifest? <==> data != [] && (|Split(data, chunkSize)| != 1 || |data| >= singleThreshold)
      ensures CollisionFree(sum, data, chunkSize) ==>
                (ReadContent(sum, st, c) == Some(data) <==> !c.ByManifest? || WidthsFit(data, chunkSize))
      ensures old(Pledged()) <= st.locators.Keys && packer.buf == [] && packer.pending == [] && SealedNow(old(st), st, now)
      ensures AllLocated(sum, old(st), data, chunkSize) && old(packer.buf) == [] ==> st == old(st).(manifests := st.manifests)
    {
      hide SealedNow, ValidStore, AllHeld, Kept, ReadContent;
      c := StoreContent(data, now);
      ghost var st1 := st;
      FlushPacker(now);
      SealedTwice(old(st), st1, st, now);
      KeptTwice(old(st), st1, st);
      ReferenceKept(sum, st1, st, data, chunkSize, c);
      assert AllLocated(sum, st, data, chunkSize) by {
        forall i | 0 <= i < |Split(data, chunkSize)| ensures sum(Split(data, chunkSize)[i]) in st.locators {
          assert Chunks(sum, Split(data, chunkSize))[i].id in st.locators;
        }
      }
      if CollisionFree(sum, data, chunkSize) {
        StoredReadsBackIff(sum, st, data, chunkSize, c);
      }
    }
  }

  /** Every chunk of the file has a locator. */
  ghost predicate AllLocated(sum: Bytes -> Digest, st: Store, data: Bytes, size: nat)
    requires size > 0
  {
    forall i :: 0 <= i < |Split(data, size)| ==> sum(Split(data, size)[i]) in st.locators
  }

  lemma LonePiece(data: Bytes, size: nat)
    requires size > 0 && |Split(data, size)| == 1
    ensures Split(data, size) == [data]
  {
    var pieces := Split(data, size);
    assert Concat(pieces) == data by {
      SplitLaws(data, size);
    }
    assert pieces[1..] == [] && pieces == [pieces[0]];
    assert Concat(pieces) == pieces[0] + [] == pieces[0];
  }

  // --- reading back --------------------------------------------------------------------

  lemma LocatedReads(sum: Bytes -> Digest, st: Store, b: Bytes)
    requires ValidStore(sum, st) && sum(b) in st.locators && NoCollision(sum, b)
    ensures ReadChunk(sum, st, sum(b)) == Some(b)
  {
  }

  lemma {:induction false} PiecesReadBack(sum: Bytes -> Digest, st: Store, pieces: seq<Bytes>, es: seq<Entry>)
    requires ValidStore(sum, st) && |es| == |pieces|
    requires forall i :: 0 <= i < |pieces| ==> sum(pieces[i]) in st.locators && NoCollision(sum, pieces[i])
    requires forall i :: 0 <= i < |pieces| ==> es[i].chunkID == sum(pieces[i]) && es[i].length == |pieces[i]|
    ensures ReadEntries(sum, st, es) == Some(Concat(pieces))
  {
    if pieces != [] {
      LocatedReads(sum, st, pieces[0]);
      PiecesReadBack(sum, st, pieces[1..], es[1..]);
    }
  }

  /** The manifest of a file as its entries name it, before its fields are written. */
  ghost function ManifestOf(sum: Bytes -> Digest, data: Bytes, size: nat): Manifest
    requires size > 0
  {
    NewManifest(Chunks(sum, Split(data, size)), size, |data|)
  }

  /** What a file's manifest says: how long the file is, and of each piece in order its hash and length. */
  lemma ManifestDescribes(sum: Bytes -> Digest, data: Bytes, size: nat)
    requires size > 0
    ensures var m := ManifestOf(sum, data, size);
            && m.version == 1 && m.contentSize == |data| % Pow256(8) && m.chunkSizeHint == size % Pow256(4)
            && |m.entries| == |Split(data, size)|
            && forall i :: 0 <= i < |m.entries| ==> m.entries[i] == Entry(sum(Split(data, size)[i]), |Split(data, size)[i]| % Pow256(4), 0)
  {
  }

  /** Go's conversions leave every field of it fitting, save perhaps the number of entries. */
  lemma CroppedFits(sum: Bytes -> Digest, data: Bytes, size: nat)
    requires size > 0
    ensures Fits(Cropped(ManifestOf(sum, data, size)))
  {
    hide Pow256;
    var m := ManifestOf(sum, data, size);
    ModSmaller(|m.entries|, Pow256(4));
    ModSmaller(|data|, Pow256(8));
    ModSmaller(size, Pow256(4));
    forall i | 0 <= i < |m.entries| ensures m.entries[i].length < Pow256(4) && m.entries[i].flags < Pow256(4) {
      ModSmaller(|Chunks(sum, Split(data, size))[i].data|, Pow256(4));
    }
  }

  lemma ModSmaller(n: nat, m: nat)
    requires m > 0
    ensures n % m < m && n % m <= n
  {
  }

  lemma ManifestFits(sum: Bytes -> Digest, data: Bytes, size: nat)
    requires size > 0 && WidthsFit(data, size)
    ensures Cropped(ManifestOf(sum, data, size)) == ManifestOf(sum, data, size)
    ensures forall i :: 0 <= i < |Split(data, size)| ==> ManifestOf(sum, data, size).entries[i].length == |Split(data, size)[i]|
  {
    hide Pow256;
    var m := ManifestOf(sum, data, size);
    SplitWithin(data, size);
    SmallMod(|m.entries|, Pow256(4));
    forall i | 0 <= i < |m.entries| ensures m.entries[i].length == |Split(data, size)[i]| {
      SmallMod(|Split(data, size)[i]|, Pow256(4));
    }
    assert m.entries[..|m.entries|] == m.entries;
  }

  /** What the store gives back for the manifest of a file. */
  lemma StoredManifest(sum: Bytes -> Digest, st: Store, data: Bytes, size: nat, c: Content)
    requires size > 0 && CollisionFree(sum, data, size) && Refers(sum, st, data, size, c) && c.ByManifest?
    ensures GetManifest(st, c.manifest) == Some(Cropped(ManifestOf(sum, data, size)))
  {
    hide DecodeBytes, Encode;
    CroppedFits(sum, data, size);
    DecodeCrops(ManifestOf(sum, data, size));
  }

  lemma SmallMod(n: nat, m: nat)
    requires n < m
    ensures n % m == n
  {
  }

  lemma {:induction false} SplitWithin(b: Bytes, size: nat)
    requires size > 0
    ensures forall i :: 0 <= i < |Split(b, size)| ==> |Split(b, size)[i]| <= Min(size, |b|)
    decreases |b|
  {
    if b != [] {
      SplitWithin(b[Min(size, |b|)..], size);
    }
  }

  lemma StoredReadsBack(sum: Bytes -> Digest, st: Store, data: Bytes, size: nat, c: Content)
    requires size > 0 && ValidStore(sum, st) && CollisionFree(sum, data, size) && AllLocated(sum, st, data, size)
    requires Refers(sum, st, data, size, c) && (c.ByManifest? ==> WidthsFit(data, size))
    ensures ReadContent(sum, st, c) == Some(data)
  {
    var pieces := Split(data, size);
    SplitLaws(data, size);
    match c
    case NoContent =>
    case Inline(id) =>
      assert pieces[0] == data;
      LocatedReads(sum, st, data);
    case ByManifest(id) =>
      StoredManifest(sum, st, data, size, c);
      ManifestFits(sum, data, size);
      PiecesReadBack(sum, st, pieces, ManifestOf(sum, data, size).entries);
  }

  /** Entries that can be read give the pieces they name, from the first on. */
  lemma {:induction false} ReadsPieces(sum: Bytes -> Digest, st: Store, pieces: seq<Bytes>, es: seq<Entry>)
    requires |es| <= |pieces| && ReadEntries(sum, st, es).Some?
    requires forall i :: 0 <= i < |es| ==> es[i].chunkID == sum(pieces[i]) && NoCollision(sum, pieces[i])
    ensures ReadEntries(sum, st, es) == Some(Concat(pieces[..|es|]))
    ensures es != [] ==> es[0].length == |pieces[0]|
  {
    if es == [] {
      assert pieces[..0] == [];
    } else {
      assert ReadChunk(sum, st, es[0].chunkID) == Some(pieces[0]);
      ReadsPieces(sum, st, pieces[1..], es[1..]);
      assert pieces[..|es|][1..] == pieces[1..][..|es| - 1];
    }
  }

  lemma {:induction false} ConcatShorter(pieces: seq<Bytes>, n: nat)
    requires n < |pieces| && forall i :: 0 <= i < |pieces| ==> pieces[i] != []
    ensures |Concat(pieces[..n])| < |Concat(pieces)|
  {
    if n == 0 {
      assert pieces[..0] == [] && pieces[0] != [];
    } else {
      ConcatShorter(pieces[1..], n - 1);
      assert pieces[..n][1..] == pieces[1..][..n - 1];
    }
  }

  /** A file whose manifest lost part of a number does not read back. */
  lemma CutWidthsUnreadable(sum: Bytes -> Digest, st: Store, data: Bytes, size: nat)
    requires size > 0 && CollisionFree(sum, data, size) && data != [] && !WidthsFit(data, size)
    ensures ReadEntries(sum, st, Cropped(ManifestOf(sum, data, size)).entries) != Some(data)
  {
    hide Pow256;
    var pieces, m := Split(data, size), ManifestOf(sum, data, size);
    var es := Cropped(m).entries;
    SplitLaws(data, size);
    if ReadEntries(sum, st, es) == Some(data) {
      ReadsPieces(sum, st, pieces, es);
      if |es| < |pieces| {
        ConcatShorter(pieces, |es|);
      }
    }
  }

  /**
   What was stored reads back as the data unless it went into a manifest whose entry count or chunk lengths did not
   fit their four bytes; nothing else about its size matters.
   */
  lemma StoredReadsBackIff(sum: Bytes -> Digest, st: Store, data: Bytes, size: nat, c: Content)
    requires size > 0 && ValidStore(sum, st) && CollisionFree(sum, data, size) && AllLocated(sum, st, data, size)
    requires Refers(sum, st, data, size, c)
    ensures ReadContent(sum, st, c) == Some(data) <==> !c.ByManifest? || WidthsFit(data, size)
  {
    hide ReadEntries, Cropped;
    if !c.ByManifest? || WidthsFit(data, size) {
      StoredReadsBack(sum, st, data, size, c);
    } else {
      StoredManifest(sum, st, data, size, c);
      CutWidthsUnreadable(sum, st, data, size);
    }
  }

  /** Both widths can be exceeded: one chunk of 2^32 bytes and one more byte, or 2^32 chunks of one byte. */
  lemma WidthsExceeded() returns (long: Bytes, many: Bytes)
    ensures |Split(long, Pow256(4))| == 2 && !WidthsFit(long, Pow256(4))
    ensures |Split(many, 1)| == Pow256(4) && Min(1, |many|) < Pow256(4) && !WidthsFit(many, 1)
  {
    hide Pow256;
    assert Pow256(4) > 1 by { PowLarge(); }
    long := seq(Pow256(4) + 1, _ => 0);
    SplitFull(long, Pow256(4));
    SplitFull(long[Pow256(4)..], Pow256(4));
    many := seq(Pow256(4), _ => 0);
    SplitBytes(many);
  }

  lemma PowLarge()
    ensures Pow256(4) == 0x1_0000_0000
  {
  }

  lemma SplitFull(b: Bytes, size: nat)
    requires size > 0 && b != []
    ensures |Split(b, size)| == 1 + |Split(b[Min(size, |b|)..], size)|
  {
  }

  lemma {:induction false} SplitBytes(b: Bytes)
    ensures |Split(b, 1)| == |b|
  {
    if b != [] {
      SplitBytes(b[1..]);
    }
  }
}
