/** Building the replacement of a sparse container: fetch, verify and pack back to back (rewriteContainer). */
module Repacking {
  import opened Base
  import opened Storage
  import opened Space
  import opened Chunking
  import opened Garbage

  /** One chunk of a sparse container, fetched, verified and appended to the new image. */
  method Gather(sum: Bytes -> Digest, st: Store, c: ChunkID, packer: Packer, ghost done: set<ChunkID>) returns (ok: bool)
    requires StoreOK(st) && c in st.locators && c !in done && packer.align == 0
    requires Gathered(sum, st, done, packer.buf, packer.pending)
    modifies packer
    ensures ok == ReadChunk(sum, st, c).Some? && packer.align == 0
    ensures ok ==> Gathered(sum, st, done + {c}, packer.buf, packer.pending)
  {
    var b := ReadChunk(sum, st, c);
    if b.None? { return false; }
    ghost var buf, pending := packer.buf, packer.pending;
    packer.Add(sum, Chunk(c, b.value));
    GatherNext(sum, st, done, c, b.value, buf, pending, packer.buf, packer.pending);
    ok := true;
  }

  method GatherAll(sum: Bytes -> Digest, st: Store, entries: set<ChunkID>) returns (ok: bool, packer: Packer)
    requires StoreOK(st) && entries <= st.locators.Keys
    ensures fresh(packer)
    ensures ok ==> Gathered(sum, st, entries, packer.buf, packer.pending)
    ensures !ok ==> exists c :: c in entries && ReadChunk(sum, st, c).None?
  {
    packer := new Packer(0);
    var todo := entries;
    ghost var done: set<ChunkID> := {};
    PartNone(st.locators);
    while todo != {}
      invariant todo <= entries && packer.align == 0 && done == entries - todo
      invariant Gathered(sum, st, done, packer.buf, packer.pending)
      decreases |todo|
    {
      var c :| c in todo;
      ok := Gather(sum, st, c, packer, done);
      if !ok { return; }
      todo, done := todo - {c}, done + {c};
    }
    ok := true;
  }

  /** The chunks of a sparse container packed back to back; nothing is written yet. */
  method PackEntries(sum: Bytes -> Digest, st: Store, entries: set<ChunkID>) returns (ok: bool, data: Bytes, locs: Locators)
    requires StoreOK(st) && entries <= st.locators.Keys
    ensures ok ==> Packed(sum, st, entries, st.nextKey, data, locs)
    ensures !ok ==> exists c :: c in entries && ReadChunk(sum, st, c).None?
  {
    data, locs := [], map[];
    var packer;
    ok, packer := GatherAll(sum, st, entries);
    if ok {
      ghost var pending := packer.pending;
      data, locs := packer.Seal(sum, st.nextKey);
      PackedFrom(sum, st, entries, st.nextKey, data, locs, pending);
    }
  }

  /** The locators of some chunks. */
  function Part(m: Locators, s: set<ChunkID>): Locators {
    map c | c in m && c in s :: m[c]
  }

  lemma PartNone(m: Locators)
    ensures Part(m, {}) == map[]
  {
  }

  /** A container image holding exactly `entries`, and where in it each of them is. */
  ghost predicate Packed(sum: Bytes -> Digest, st: Store, entries: set<ChunkID>, key: Key, data: Bytes, locs: Locators) {
    && locs.Keys == entries && entries <= st.locators.Keys && |data| == SumLen(Part(st.locators, entries))
    && forall c :: c in entries ==>
                     && locs[c].container == key && locs[c].length == st.locators[c].length
                     && locs[c].offset + locs[c].length <= |data|
                     && ReadChunk(sum, st, c) == Some(data[locs[c].offset..locs[c].offset + locs[c].length])
  }

  /** One pending entry carries the bytes its chunk reads as. */
  ghost predicate Carries(sum: Bytes -> Digest, st: Store, buf: Bytes, e: Pending) {
    && e.id in st.locators && e.length == st.locators[e.id].length && e.offset + e.length <= |buf|
    && ReadChunk(sum, st, e.id) == Some(buf[e.offset..e.offset + e.length])
  }

  ghost predicate Gathered(sum: Bytes -> Digest, st: Store, done: set<ChunkID>, buf: Bytes, pending: seq<Pending>) {
    && AllHeld(sum, buf, pending) && PendingIDs(pending) == done
    && |buf| == SumLen(Part(st.locators, done))
    && forall e :: e in pending ==> Carries(sum, st, buf, e)
  }

  lemma CarriesOn(sum: Bytes -> Digest, st: Store, buf: Bytes, buf': Bytes, e: Pending)
    requires Carries(sum, st, buf, e) && buf <= buf'
    ensures Carries(sum, st, buf', e)
  {
    assert buf'[e.offset..e.offset + e.length] == buf[e.offset..e.offset + e.length];
  }

  lemma GatherNext(sum: Bytes -> Digest, st: Store, done: set<ChunkID>, c: ChunkID, b: Bytes,
                   buf: Bytes, pending: seq<Pending>, buf': Bytes, pending': seq<Pending>)
    requires Gathered(sum, st, done, buf, pending) && AllHeld(sum, buf', pending')
    requires c in st.locators && c !in done && ReadChunk(sum, st, c) == Some(b)
    requires pending' == pending + [Pending(c, |buf|, |b|)] && buf <= buf' && |buf'| == |buf| + |b| && buf'[|buf|..] == b
    ensures Gathered(sum, st, done + {c}, buf', pending')
  {
    assert Part(st.locators, done + {c}) == Part(st.locators, done)[c := st.locators[c]];
    SumLenAdd(Part(st.locators, done), c, st.locators[c]);
    assert buf'[|buf|..|buf| + |b|] == b;
    forall e | e in pending' ensures Carries(sum, st, buf', e) {
      if e in pending {
        CarriesOn(sum, st, buf, buf', e);
      }
    }
    assert PendingIDs(pending') == PendingIDs(pending) + {c};
  }

  lemma PackedFrom(sum: Bytes -> Digest, st: Store, entries: set<ChunkID>, key: Key, data: Bytes, locs: Locators,
                   pending: seq<Pending>)
    requires Gathered(sum, st, entries, data, pending) && entries <= st.locators.Keys && locs.Keys == PendingIDs(pending)
    requires forall c :: c in locs ==> locs[c].container == key && Pending(c, locs[c].offset, locs[c].length) in pending
    ensures Packed(sum, st, entries, key, data, locs)
  {
    forall c | c in entries
      ensures && locs[c].length == st.locators[c].length && locs[c].offset + locs[c].length <= |data|
              && ReadChunk(sum, st, c) == Some(data[locs[c].offset..locs[c].offset + locs[c].length])
    {
      assert Carries(sum, st, data, Pending(c, locs[c].offset, locs[c].length));
    }
  }

  /** The locators with those of `s` replaced. */
  function Overlay(m: Locators, locs: Locators, s: set<ChunkID>): Locators {
    map c | c in m :: if c in s && c in locs then locs[c] else m[c]
  }

  lemma OverlayNone(m: Locators, locs: Locators)
    ensures Overlay(m, locs, {}) == m
  {
  }

  lemma OverlayNext(m: Locators, locs: Locators, s: set<ChunkID>, c: ChunkID)
    requires c in m && c in locs && c !in s
    ensures Overlay(m, locs, s)[c := locs[c]] == Overlay(m, locs, s + {c}) && Overlay(m, locs, s)[c] == m[c]
  {
  }

  /** Each chunk can be read through its new locator exactly as through its current one. */
  ghost predicate Relocatable(sum: Bytes -> Digest, st: Store, key: Key, locs: Locators) {
    forall c :: c in locs ==>
                  && c in st.locators && locs[c].container == key && locs[c].length > 0
                  && Fetch(sum, st.objects, c, locs[c]) == ReadChunk(sum, st, c)
  }

  /** Once the image is stored, the packed chunks are relocatable to it. */
  lemma PackedIsRelocatable(sum: Bytes -> Digest, st: Store, entries: set<ChunkID>, data: Bytes, locs: Locators)
    requires StoreOK(st) && Packed(sum, st, entries, st.nextKey, data, locs)
    ensures Relocatable(sum, PutObject(st, data), st.nextKey, locs)
  {
    var st' := PutObject(st, data);
    forall c | c in locs ensures Fetch(sum, st'.objects, c, locs[c]) == ReadChunk(sum, st', c) {
      assert ReadChunk(sum, st', c) == ReadChunk(sum, st, c);
    }
  }

  lemma PackedIsRewritten(sum: Bytes -> Digest, st: Store, st': Store, k: Key, data: Bytes, locs: Locators)
    requires StoreOK(st) && k < st.nextKey && Packed(sum, st, In(st.locators, k).Keys, st.nextKey, data, locs) && locs != map[]
    requires st'.locators == st.locators + locs && st'.objects == st.objects[st.nextKey := data]
    requires st'.dead == st.dead && st'.nextKey == st.nextKey + 1
    ensures Rewritten(st, st', k)
  {
    assert Part(st.locators, In(st.locators, k).Keys) == In(st.locators, k);
    MovedIsRewritten(st, st', k, locs, data);
  }
}
