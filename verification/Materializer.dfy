/** The local cache of materialized files (pkg/libatlas/materializer.go), keyed by content. */
module Materializer {
  import opened Base
  import opened Manifest
  import opened Namespace
  import opened Storage

  // --- content keys ------------------------------------------------------------------------------

  const HEX := "0123456789abcdef"

  function HexOf(b: Bytes): string {
    if b == [] then "" else [HEX[b[0] / 16], HEX[b[0] % 16]] + HexOf(b[1..])
  }

  lemma HexDistinct(i: nat, j: nat)
    requires i < 16 && j < 16 && HEX[i] == HEX[j]
    ensures i == j
  {
  }

  lemma {:induction false} HexInjective(a: Bytes, b: Bytes)
    requires |a| == |b| && HexOf(a) == HexOf(b)
    ensures a == b
  {
    if a != [] {
      assert HexOf(a)[0] == HEX[a[0] / 16] && HexOf(a)[1] == HEX[a[0] % 16];
      assert HexOf(b)[0] == HEX[b[0] / 16] && HexOf(b)[1] == HEX[b[0] % 16];
      HexDistinct(a[0] / 16, b[0] / 16);
      HexDistinct(a[0] % 16, b[0] % 16);
      assert HexOf(a[1..]) == HexOf(a)[2..] && HexOf(b[1..]) == HexOf(b)[2..];
      HexInjective(a[1..], b[1..]);
      assert a == [a[0]] + a[1..] && b == [b[0]] + b[1..];
    }
  }

  function ContentKey(c: Content): string {
    match c
    case Inline(id) => "inline-" + HexOf(id)
    case ByManifest(id) => "manifest-" + HexOf(id)
    case NoContent => "empty"
  }

  lemma ContentKeyInjective(c: Content, d: Content)
    requires ContentKey(c) == ContentKey(d)
    ensures c == d
  {
    var k := ContentKey(c);
    assert k[0] == if c.Inline? then 'i' else if c.ByManifest? then 'm' else 'e';
    assert k[0] == if d.Inline? then 'i' else if d.ByManifest? then 'm' else 'e';
    if c.Inline? {
      assert HexOf(c.chunk) == k[7..] && HexOf(d.chunk) == k[7..];
      HexInjective(c.chunk, d.chunk);
    } else if c.ByManifest? {
      assert HexOf(c.manifest) == k[9..] && HexOf(d.manifest) == k[9..];
      HexInjective(c.manifest, d.manifest);
    }
  }

  /** What is read through this reference has no second preimage: its manifest and each of its chunks. */
  ghost predicate Sure(sum: Bytes -> Digest, st: Store, c: Content) {
    && (c.ByManifest? && c.manifest in st.manifests ==> NoCollision(sum, st.manifests[c.manifest]))
    && (ChunkIDs(st, c).Some? ==>
          forall id :: id in ChunkIDs(st, c).value && ReadChunk(sum, st, id).Some? ==> NoCollision(sum, ReadChunk(sum, st, id).value))
  }

  lemma SameChunk(sum: Bytes -> Digest, st: Store, st': Store, id: ChunkID)
    requires ReadChunk(sum, st, id).Some? && ReadChunk(sum, st', id).Some? && NoCollision(sum, ReadChunk(sum, st, id).value)
    ensures ReadChunk(sum, st', id) == ReadChunk(sum, st, id)
  {
  }

  lemma {:induction false} SameEntries(sum: Bytes -> Digest, st: Store, st': Store, es: seq<Entry>)
    requires ReadEntries(sum, st, es).Some? && ReadEntries(sum, st', es).Some?
    requires forall i :: 0 <= i < |es| && ReadChunk(sum, st, es[i].chunkID).Some? ==> NoCollision(sum, ReadChunk(sum, st, es[i].chunkID).value)
    ensures ReadEntries(sum, st', es) == ReadEntries(sum, st, es)
  {
    if es != [] {
      SameChunk(sum, st, st', es[0].chunkID);
      assert forall i :: 0 <= i < |es[1..]| ==> es[1..][i] == es[i + 1];
      SameEntries(sum, st, st', es[1..]);
    }
  }

  /** Equal keys mean equal bytes, in whatever two stores, at whatever two times, the files are read. */
  lemma SameKeySameBytes(sum: Bytes -> Digest, st: Store, st': Store, c: Content, d: Content)
    requires ContentKey(c) == ContentKey(d) && Sure(sum, st, c) && ValidManifests(sum, st) && ValidManifests(sum, st')
    requires ReadContent(sum, st, c).Some? && ReadContent(sum, st', d).Some?
    ensures ReadContent(sum, st', d) == ReadContent(sum, st, c)
  {
    ContentKeyInjective(c, d);
    match c
    case NoContent =>
    case Inline(id) =>
      assert id in ChunkIDs(st, c).value;
      SameChunk(sum, st, st', id);
    case ByManifest(id) =>
      var es := GetManifest(st, id).value.entries;
      assert st'.manifests[id] == st.manifests[id];
      forall i | 0 <= i < |es| && ReadChunk(sum, st, es[i].chunkID).Some?
        ensures NoCollision(sum, ReadChunk(sum, st, es[i].chunkID).value)
      {
        assert ChunkIDs(st, c).value[i] == es[i].chunkID;
      }
      SameEntries(sum, st, st', es);
  }

  // --- the cache -----------------------------------------------------------------------------------

  datatype Cached = Cached(key: string, size: nat)

  function Total(l: seq<Cached>): nat {
    if l == [] then 0 else l[0].size + Total(l[1..])
  }

  lemma {:induction false} TotalConcat(a: seq<Cached>, b: seq<Cached>)
    ensures Total(a + b) == Total(a) + Total(b)
  {
    if a == [] {
      assert a + b == b;
    } else {
      TotalConcat(a[1..], b);
      assert (a + b)[1..] == a[1..] + b;
    }
  }

  lemma TotalOne(e: Cached)
    ensures Total([e]) == e.size
  {
  }

  lemma IndexedAt(l: seq<Cached>, m: map<string, Cached>, i: nat)
    requires Indexes(l, m) && i < |l|
    ensures l[i].key in m && m[l[i].key] == l[i]
  {
  }

  lemma TotalWithout(l: seq<Cached>, i: nat)
    requires i < |l|
    ensures Total(l) == l[i].size + Total(l[..i] + l[i + 1..])
  {
    hide Total;
    assert l == l[..i] + ([l[i]] + l[i + 1..]);
    TotalConcat(l[..i], [l[i]] + l[i + 1..]);
    TotalConcat([l[i]], l[i + 1..]);
    TotalConcat(l[..i], l[i + 1..]);
    TotalOne(l[i]);
  }

  ghost predicate DistinctKeys(l: seq<Cached>) {
    forall i, j :: 0 <= i < j < |l| ==> l[i].key != l[j].key
  }

  /** The map points at exactly the list's elements. */
  ghost predicate Indexes(l: seq<Cached>, m: map<string, Cached>) {
    && DistinctKeys(l) && (forall i :: 0 <= i < |l| ==> l[i].key in m && m[l[i].key] == l[i])
    && (forall k :: k in m ==> m[k] in l && m[k].key == k)
  }

  lemma WithoutAt(l: seq<Cached>, i: nat, j: nat)
    requires i < |l| && j < |l| - 1
    ensures (l[..i] + l[i + 1..])[j] == l[if j < i then j else j + 1]
  {
  }

  lemma DistinctWithout(l: seq<Cached>, i: nat)
    requires DistinctKeys(l) && i < |l|
    ensures DistinctKeys(l[..i] + l[i + 1..]) && forall e :: e in l[..i] + l[i + 1..] ==> e in l && e.key != l[i].key
  {
    var l' := l[..i] + l[i + 1..];
    forall j | 0 <= j < |l'| ensures l'[j] == l[if j < i then j else j + 1] {
      WithoutAt(l, i, j);
    }
  }

  lemma IndexesWithout(l: seq<Cached>, m: map<string, Cached>, i: nat)
    requires Indexes(l, m) && i < |l|
    ensures Indexes(l[..i] + l[i + 1..], m - {l[i].key})
  {
    var l' := l[..i] + l[i + 1..];
    DistinctWithout(l, i);
    forall j | 0 <= j < |l'| ensures l'[j].key in m - {l[i].key} && m[l'[j].key] == l'[j] {
      assert l'[j] in l;
    }
    forall k | k in m && k != l[i].key ensures m[k] in l' {
      var j :| 0 <= j < |l| && l[j] == m[k];
      WithoutAt(l, i, if j < i then j else j - 1);
    }
  }

  lemma IndexesFront(l: seq<Cached>, m: map<string, Cached>, e: Cached)
    requires Indexes(l, m) && e.key !in m
    ensures Indexes([e] + l, m[e.key := e])
  {
    var l', m' := [e] + l, m[e.key := e];
    forall k | k in m' ensures m'[k] in l' {
      if k != e.key {
        var j :| 0 <= j < |l| && l[j] == m[k];
        assert l'[j + 1] == l[j];
      } else {
        assert l'[0] == e;
      }
    }
  }

  /** Moving an element to the front changes neither the index nor the total. */
  lemma IndexesMoved(l: seq<Cached>, m: map<string, Cached>, i: nat)
    requires Indexes(l, m) && i < |l|
    ensures Indexes([l[i]] + (l[..i] + l[i + 1..]), m) && Total([l[i]] + (l[..i] + l[i + 1..])) == Total(l)
  {
    hide Indexes, Total, Holds;
    var e, rest := l[i], l[..i] + l[i + 1..];
    IndexedAt(l, m, i);
    IndexesWithout(l, m, i);
    TotalWithout(l, i);
    assert (m - {e.key})[e.key := e] == m;
    IndexesFront(rest, m - {e.key}, e);
    TotalConcat([e], rest);
    TotalOne(e);
  }

  lemma TailPrefix(e: Cached, l: seq<Cached>, was: seq<Cached>)
    requires l != [] && l <= [e] + was
    ensures l[1..] <= was && l[0] == e
  {
    assert was == ([e] + was)[1..];
  }

  lemma TotalPrefix(l: seq<Cached>, n: nat)
    requires n <= |l|
    ensures Total(l[..n]) <= Total(l)
  {
    hide Total;
    TotalConcat(l[..n], l[n..]);
    assert l == l[..n] + l[n..];
    TotalPositive(l[n..]);
  }

  lemma TotalPositive(l: seq<Cached>)
    ensures Total(l) >= 0
  {
  }

  /** Which of the older entries fit beside a new one in the longest prefix that does. */
  lemma LongestPrefix(e: Cached, was: seq<Cached>, l: seq<Cached>, max: int, n: nat)
    requires l != [] && l <= [e] + was && (Total(l) <= max || l == [e]) && 0 < n <= |was|
    requires forall j :: |l| < j <= |[e] + was| ==> Total(([e] + was)[..j]) > max
    ensures n < |l| <==> e.size + Total(was[..n]) <= max
  {
    hide Total;
    var all := [e] + was;
    assert all[..n + 1] == [e] + was[..n];
    TotalConcat([e], was[..n]);
    TotalOne(e);
    if n < |l| {
      assert l[..n + 1] == all[..n + 1];
      TotalPrefix(l, n + 1);
    }
  }

  /** The list without its element number `i`, the others in their order. */
  function Without(l: seq<Cached>, i: nat): seq<Cached>
    requires i < |l|
  {
    l[..i] + l[i + 1..]
  }

  /** The reference and the store a file was read from. */
  datatype Origin = Origin(content: Content, st: Store)

  ghost predicate Holds(sum: Bytes -> Digest, o: Origin, key: string, data: Bytes) {
    ContentKey(o.content) == key && ValidManifests(sum, o.st) && ReadContent(sum, o.st, o.content) == Some(data)
  }

  /** How a call that found the lock free goes on: served, waiting for another fetch, or fetching itself. */
  datatype Turn = Hit | Join | Lead

  /** Each method is one critical section or the one rename between them, so any interleaving is a sequence of calls. */
  class Cache {
    const sum: Bytes -> Digest
    const maxBytes: int
    var byKey: map<string, Cached>
    var lru: seq<Cached>
    var curBytes: int
    var inflight: set<string>
    var files: map<string, Bytes>
    /** What each file was read from. */
    ghost var origin: map<string, Origin>

    ghost predicate Valid()
      reads this
    {
      && Indexes(lru, byKey) && curBytes == Total(lru) && inflight !! byKey.Keys
      && byKey.Keys <= origin.Keys && origin.Keys <= byKey.Keys + inflight
      && (forall k :: k in origin ==> k in files && Holds(sum, origin[k], k, files[k]))
    }

    constructor (sum: Bytes -> Digest, maxBytes: int)
      requires maxBytes > 0
      ensures Valid() && this.sum == sum && this.maxBytes == maxBytes && lru == [] && byKey == map[] && inflight == {}
    {
      this.sum, this.maxBytes := sum, maxBytes;
      byKey, lru, curBytes, inflight, files, origin := map[], [], 0, {}, map[], map[];
    }

    /** The place of a cached key in the list. */
    method Find(key: string) returns (i: nat)
      requires Valid() && key in byKey
      ensures i < |lru| && lru[i] == byKey[key] && lru[i].key == key
    {
      hide Total, Holds;
      i := 0;
      ghost var j :| 0 <= j < |lru| && lru[j] == byKey[key];
      while lru[i] != byKey[key]
        invariant i <= j
        decreases j - i
      {
        i := i + 1;
      }
    }

    /** The first section of materialize. */
    method Begin(key: string) returns (t: Turn)
      requires Valid()
      modifies this`lru, this`inflight
      ensures Valid()
      ensures t == if key in byKey then Hit else if key in old(inflight) then Join else Lead
      ensures t.Hit? ==> |lru| == |old(lru)| > 0 && lru[0] == byKey[key] && inflight == old(inflight)
      ensures t.Hit? ==> exists i :: 0 <= i < |old(lru)| && lru == [old(lru)[i]] + Without(old(lru), i)
      ensures t.Join? ==> lru == old(lru) && inflight == old(inflight)
      ensures t.Lead? ==> lru == old(lru) && inflight == old(inflight) + {key}
    {
      hide Indexes, Total, Holds;
      if key in byKey {
        var i := Find(key);
        IndexesMoved(lru, byKey, i);
        assert [lru[i]] + (lru[..i] + lru[i + 1..]) == [lru[i]] + Without(lru, i);
        lru := [lru[i]] + (lru[..i] + lru[i + 1..]);
        return Hit;
      }
      if key in inflight { return Join; }
      inflight := inflight + {key};
      t := Lead;
    }

    /** The leader's fetch, renamed into place; those that joined are handed the path before it is in the list. */
    method Rename(c: Content, st: Store, data: Bytes)
      requires Valid() && ContentKey(c) in inflight && ValidManifests(sum, st) && ReadContent(sum, st, c) == Some(data)
      modifies this`files, this`origin
      ensures Valid() && files == old(files)[ContentKey(c) := data] && origin == old(origin)[ContentKey(c) := Origin(c, st)]
    {
      hide Indexes, Total;
      files := files[ContentKey(c) := data];
      origin := origin[ContentKey(c) := Origin(c, st)];
    }

    /**
     A hit needs no revalidation: whatever store and reference a caller comes with, if its key is cached, the file is
     what reading that reference there would give.
     */
    lemma HitIsFresh(c: Content, st: Store)
      requires Valid() && ContentKey(c) in byKey && ValidManifests(sum, st) && Sure(sum, st, c) && ReadContent(sum, st, c).Some?
      ensures ContentKey(c) in files && Some(files[ContentKey(c)]) == ReadContent(sum, st, c)
    {
      var o := origin[ContentKey(c)];
      SameKeySameBytes(sum, st, o.st, c, o.content);
    }

    /** One element and its file. */
    method Remove(i: nat)
      requires Valid() && i < |lru|
      modifies this`lru, this`byKey, this`curBytes, this`files, this`origin
      ensures Valid() && lru == old(lru)[..i] + old(lru)[i + 1..] && byKey == old(byKey) - {old(lru)[i].key}
      ensures curBytes == old(curBytes) - old(lru)[i].size && files == old(files) - {old(lru)[i].key}
      ensures origin == old(origin) - {old(lru)[i].key}
    {
      hide Indexes, Total, Holds;
      var e := lru[i];
      IndexesWithout(lru, byKey, i);
      TotalWithout(lru, i);
      lru := lru[..i] + lru[i + 1..];
      byKey := byKey - {e.key};
      curBytes := curBytes - e.size;
      files := files - {e.key};
      origin := origin - {e.key};
    }

    /** From the back until the budget holds, never the entry just inserted and never one more than that takes. */
    method EvictLocked(ghost protect: Cached)
      requires Valid() && lru != [] && lru[0] == protect
      modifies this`lru, this`byKey, this`curBytes, this`files, this`origin
      ensures Valid() && lru != [] && lru <= old(lru)
      ensures curBytes <= maxBytes || lru == [protect]
      ensures forall n :: |lru| < n <= |old(lru)| ==> Total(old(lru)[..n]) > maxBytes
      ensures forall k :: k in byKey ==> k in old(files) && files[k] == old(files)[k]
    {
      hide Indexes, Total, Holds;
      while curBytes > maxBytes
        invariant Valid() && lru != [] && lru <= old(lru)
        invariant forall n :: |lru| < n <= |old(lru)| ==> Total(old(lru)[..n]) > maxBytes
        invariant forall k :: k in byKey ==> k in old(files) && files[k] == old(files)[k]
        decreases |lru|
      {
        if |lru| == 1 { return; }
        var last := |lru| - 1;
        assert lru == old(lru)[..|lru|];
        assert lru[..last] + lru[last + 1..] == lru[..last];
        Remove(last);
      }
    }

    method PushFront(e: Cached)
      requires Valid() && e.key in inflight && e.key in origin
      modifies this`lru, this`byKey, this`curBytes, this`inflight
      ensures Valid() && lru == [e] + old(lru) && byKey == old(byKey)[e.key := e] && inflight == old(inflight) - {e.key}
    {
      hide Indexes, Total, Holds;
      inflight := inflight - {e.key};
      IndexesFront(lru, byKey, e);
      TotalConcat([e], lru);
      TotalOne(e);
      lru := [e] + lru;
      byKey := byKey[e.key := e];
      curBytes := curBytes + e.size;
    }

    /** The last section of materialize: list what was fetched, or forget that it was tried. */
    method Finish(key: string, size: nat, fetched: bool)
      requires Valid() && key in inflight && (fetched <==> key in origin)
      modifies this`lru, this`byKey, this`curBytes, this`inflight, this`files, this`origin
      ensures Valid() && inflight == old(inflight) - {key}
      ensures !fetched ==> lru == old(lru) && files == old(files)
      ensures fetched ==> lru != [] && lru[0] == Cached(key, size) && key in byKey && files[key] == old(files)[key]
      ensures fetched ==> curBytes <= maxBytes || lru == [Cached(key, size)]
      ensures fetched ==> lru[1..] <= old(lru)
      ensures fetched ==> forall n :: 0 < n <= |old(lru)| ==> (n < |lru| <==> size + Total(old(lru)[..n]) <= maxBytes)
    {
      hide Indexes, Total, Holds;
      if fetched {
        PushFront(Cached(key, size));
        EvictLocked(Cached(key, size));
        IndexedAt(lru, byKey, 0);
        TailPrefix(Cached(key, size), lru, old(lru));
        forall n | 0 < n <= |old(lru)| ensures n < |lru| <==> size + Total(old(lru)[..n]) <= maxBytes {
          LongestPrefix(Cached(key, size), old(lru), lru, maxBytes, n);
        }
      } else {
        inflight := inflight - {key};
      }
    }

    method Evict(key: string) returns (removed: bool)
      requires Valid()
      modifies this`lru, this`byKey, this`curBytes, this`files, this`origin
      ensures Valid() && removed == (key in old(byKey)) && key !in byKey
      ensures byKey == old(byKey) - {key} && files == (if removed then old(files) - {key} else old(files))
      ensures if removed then exists i :: 0 <= i < |old(lru)| && old(lru)[i].key == key && lru == Without(old(lru), i) else lru == old(lru)
    {
      if key !in byKey {
        assert byKey == byKey - {key};
        return false;
      }
      var i := Find(key);
      assert lru[..i] + lru[i + 1..] == Without(lru, i);
      Remove(i);
      removed := true;
    }
  }

  /** Two one-byte chunks. */
  function Pair(sum: Bytes -> Digest): Store {
    Store(map[sum([1]) := Locator(0, 0, 1), sum([2]) := Locator(0, 1, 1)], map[], map[], map[0 := [1, 2]], map[], 1)
  }

  lemma PairReads(sum: Bytes -> Digest)
    requires sum([1]) != sum([2])
    ensures ReadContent(sum, Pair(sum), Inline(sum([1]))) == Some([1]) && ReadContent(sum, Pair(sum), Inline(sum([2]))) == Some([2])
    ensures ContentKey(Inline(sum([1]))) != ContentKey(Inline(sum([2]))) && ValidManifests(sum, Pair(sum))
  {
    assert Pair(sum).objects[0][0..1] == [1] && Pair(sum).objects[0][1..2] == [2];
    if ContentKey(Inline(sum([1]))) == ContentKey(Inline(sum([2]))) {
      ContentKeyInjective(Inline(sum([1])), Inline(sum([2])));
    }
  }

  /** A hit hands out a path, not an open file: another file's arrival may remove it before it is opened. */
  method HitEvicted(sum: Bytes -> Digest) returns (cache: Cache, t: Turn)
    requires sum([1]) != sum([2])
    ensures fresh(cache) && cache.Valid() && t == Hit && ContentKey(Inline(sum([1]))) !in cache.byKey
  {
    hide Indexes, Total, Holds, ReadContent, ContentKey, Cache.Valid, ValidManifests;
    PairReads(sum);
    var c1, c2, st := Inline(sum([1])), Inline(sum([2])), Pair(sum);
    cache := new Cache(sum, 1);
    t := cache.Begin(ContentKey(c1));
    cache.Rename(c1, st, [1]);
    cache.Finish(ContentKey(c1), 1, true);
    assert cache.lru == [Cached(ContentKey(c1), 1)];
    OnlyOne(cache, Cached(ContentKey(c1), 1));
    t := cache.Begin(ContentKey(c1));
    OnlyOne(cache, Cached(ContentKey(c1), 1));
    var lead := cache.Begin(ContentKey(c2));
    cache.Rename(c2, st, [2]);
    TotalOne(Cached(ContentKey(c1), 1));
    assert cache.lru[..1] == [Cached(ContentKey(c1), 1)];
    cache.Finish(ContentKey(c2), 1, true);
    assert cache.lru == [Cached(ContentKey(c2), 1)];
    OnlyOne(cache, Cached(ContentKey(c2), 1));
  }

  lemma OnlyOne(cache: Cache, e: Cached)
    requires cache.Valid() && cache.lru == [e]
    ensures cache.byKey == map[e.key := e]
  {
    hide Total, Holds;
    IndexedAt(cache.lru, cache.byKey, 0);
  }
}
