/** Reading any range of a stored file through the direct and the cached fetch paths (pkg/repo FileReader). */
module FileReading {
  import opened Base
  import opened Manifest
  import opened Namespace
  import opened Storage

  const CACHE_ENTRIES := 16

  datatype ReadError = NoError | EOF | NegativeOffset | FetchFailed

  /** offsets[i] is where entry i starts by the lengths before it. */
  ghost predicate Cumulative(es: seq<Entry>, offsets: seq<nat>) {
    && |offsets| == |es| && (es != [] ==> offsets[0] == 0)
    && (forall i :: 0 <= i < |es| - 1 ==> offsets[i + 1] == offsets[i] + es[i].length)
  }

  /** copy(dst[at:], src): as much as fits. */
  method Copy(dst: array<Byte>, at: nat, src: Bytes) returns (n: nat)
    requires at <= dst.Length
    modifies dst
    ensures n == Min(dst.Length - at, |src|)
    ensures dst[..at] == old(dst[..at]) && dst[at..at + n] == src[..n] && dst[at + n..] == old(dst[at + n..])
  {
    n := Min(dst.Length - at, |src|);
    forall j | 0 <= j < n {
      dst[at + j] := src[j];
    }
  }

  // --- the direct fetch ------------------------------------------------------------------

  /** How much of a locator's range the backend delivers: less of it when the object is short, none when it is gone. */
  function Delivered(objects: map<Key, Bytes>, loc: Locator): (b: Bytes)
    ensures |b| <= loc.length
  {
    if loc.container in objects && loc.offset <= |objects[loc.container]| then
      objects[loc.container][loc.offset..Min(loc.offset + loc.length, |objects[loc.container]|)]
    else []
  }

  /** What lands in a buffer of `len` bytes when a chunk is fetched into it, verified or not. */
  function Landed(st: Store, id: ChunkID, len: nat): (b: Bytes)
    ensures |b| <= len
  {
    if id in st.locators && st.locators[id].length == len then Delivered(st.objects, st.locators[id]) else []
  }

  /** FetchInto: the bytes land in the caller's buffer first and are verified there. */
  method FetchInto(sum: Bytes -> Digest, st: Store, id: ChunkID, p: array<Byte>, at: nat, len: nat) returns (ok: bool)
    requires 0 < len && at + len <= p.Length
    modifies p
    ensures ok <==> ReadChunk(sum, st, id).Some? && |ReadChunk(sum, st, id).value| == len
    ensures Pasted(old(p[..]), p[..], at, Landed(st, id, len))
    ensures ok ==> ReadChunk(sum, st, id) == Some(Landed(st, id, len))
  {
    if id !in st.locators { return false; }
    var loc := st.locators[id];
    if loc.length != len { return false; }
    if loc.container !in st.objects { return false; }
    var n := Copy(p, at, Delivered(st.objects, loc));
    if n < len { return false; }
    assert p[at..at + len] == Delivered(st.objects, loc);
    ok := sum(p[at..at + len]) == id;
  }

  // --- what a read returns -----------------------------------------------------------------

  /** The first entry at or after `i` that ends after `off`, or the number of entries. */
  function FirstFrom(es: seq<Entry>, offsets: seq<nat>, off: nat, i: nat): (k: nat)
    requires |offsets| == |es| && i <= |es|
    ensures i <= k <= |es| && (forall j :: i <= j < k ==> offsets[j] + es[j].length <= off)
    ensures k < |es| ==> offsets[k] + es[k].length > off
    decreases |es| - i
  {
    if i == |es| || offsets[i] + es[i].length > off then i else FirstFrom(es, offsets, off, i + 1)
  }

  lemma FirstIs(es: seq<Entry>, offsets: seq<nat>, off: nat, k: nat)
    requires |offsets| == |es| && k <= |es| && (forall j :: 0 <= j < k ==> offsets[j] + es[j].length <= off)
    requires k < |es| ==> offsets[k] + es[k].length > off
    ensures FirstFrom(es, offsets, off, 0) == k
  {
  }

  /**
   The bytes ReadAt's loop puts together from whole chunks: from the entry that covers the offset, what is left of its
   chunk, and on from where that ends. The chunk need not be as long as its entry says.
   */
  ghost function Assembled(chunks: seq<Bytes>, es: seq<Entry>, offsets: seq<nat>, size: nat, off: nat, want: nat): Bytes
    requires |chunks| == |es| == |offsets|
    decreases want
  {
    var k := FirstFrom(es, offsets, off, 0);
    if want == 0 || off >= size || k == |es| || !(offsets[k] <= off < offsets[k] + |chunks[k]|) then []
    else
      var piece := chunks[k][off - offsets[k]..];
      var m := Min(want, |piece|);
      piece[..m] + Assembled(chunks, es, offsets, size, off + m, want - m)
  }

  /** The queue once a chunk has been fetched through the cache: unchanged if it was there, else at the end, the oldest of sixteen gone. */
  function Remembered(q: seq<ChunkID>, fetched: bool, id: ChunkID): seq<ChunkID> {
    if !fetched || id in q then q else (if |q| < 16 then q else q[1..]) + [id]
  }

  class FileReader {
    const sum: Bytes -> Digest
    const content: Content
    const entries: seq<Entry>
    const offsets: seq<nat>
    const size: nat
    var cache: map<ChunkID, Bytes>
    var cacheQ: seq<ChunkID>

    /** The chunk cache is a queue of distinct chunks, at most sixteen, each holding its verified bytes. */
    ghost predicate Valid()
      reads this
    {
      && |cacheQ| <= CACHE_ENTRIES
      && (forall i, j :: 0 <= i < j < |cacheQ| ==> cacheQ[i] != cacheQ[j])
      && (forall id :: id in cache <==> id in cacheQ)
      && (forall id :: id in cache ==> sum(cache[id]) == id)
    }

    /** Entry i names exactly this chunk, which is at least as long as the entry says. */
    ghost predicate Names(b: Bytes, i: nat) {
      i < |entries| && sum(b) == entries[i].chunkID && NoCollision(sum, b) && entries[i].length <= |b|
    }

    /** The reader's references name these chunks and no other bytes. */
    ghost predicate Holding(chunks: seq<Bytes>) {
      match content
      case NoContent => chunks == []
      case Inline(id) => |chunks| == 1 && sum(chunks[0]) == id && NoCollision(sum, chunks[0])
      case ByManifest(_) =>
        Cumulative(entries, offsets) && |chunks| == |entries| && forall i :: 0 <= i < |chunks| ==> Names(chunks[i], i)
    }

    /** Every chunk is exactly as long as its entry says. */
    ghost predicate Measured(chunks: seq<Bytes>) {
      content.ByManifest? ==> |chunks| == |entries| && forall i :: 0 <= i < |chunks| ==> |chunks[i]| == entries[i].length
    }

    /** What a read of `want` bytes at `off` returns when every fetch succeeds. */
    ghost function Text(chunks: seq<Bytes>, off: int, want: nat): Bytes
      requires Holding(chunks)
    {
      if off < 0 || off >= size then []
      else match content
        case NoContent => []
        case Inline(_) => if off >= |chunks[0]| then [] else chunks[0][off..][..Min(want, |chunks[0]| - off)]
        case ByManifest(_) => Assembled(chunks, entries, offsets, size, off, want)
    }

    /** Every chunk of the file can be fetched from this store. */
    ghost predicate Available(st: Store) {
      match content
      case NoContent => true
      case Inline(id) => ReadChunk(sum, st, id).Some?
      case ByManifest(_) => forall i :: 0 <= i < |entries| ==> ReadChunk(sum, st, entries[i].chunkID).Some?
    }

    /** The next chunk goes straight into the caller's buffer: not cached, at its start, with room for all of it. */
    predicate Direct(k: nat, off: nat, room: nat)
      requires k < |entries| == |offsets|
      reads this`cache
    {
      entries[k].chunkID !in cache && off == offsets[k] && entries[k].length <= room
    }

    /** The next chunk can be had: cached, or fetched, and for a direct fetch of the length the entry says. */
    ghost predicate Readable(st: Store, k: nat, off: nat, room: nat)
      requires k < |entries| == |offsets|
      reads this`cache
    {
      var b := ReadChunk(sum, st, entries[k].chunkID);
      entries[k].chunkID in cache || (b.Some? && (Direct(k, off, room) ==> |b.value| == entries[k].length))
    }

    /** The entry that covers the offset cannot be had. */
    ghost predicate FirstFails(st: Store, off: nat, room: nat)
      requires |entries| == |offsets|
      reads this`cache
    {
      var k := FirstFrom(entries, offsets, off, 0);
      k < |entries| && !Readable(st, k, off, room)
    }

    /** The entry that covers the offset can be had, and its chunk fills the buffer. */
    ghost predicate OnePiece(st: Store, chunks: seq<Bytes>, off: nat, room: nat)
      requires |chunks| == |entries| == |offsets|
      reads this`cache
    {
      var k := FirstFrom(entries, offsets, off, 0);
      k < |entries| && off + room <= offsets[k] + |chunks[k]| && Readable(st, k, off, room)
    }

    /** What is cached can be fetched too, as it is when all of it came from this store. */
    ghost predicate Fetched(st: Store)
      reads this`cache
    {
      forall id :: id in cache ==> ReadChunk(sum, st, id).Some?
    }

    /** Some entry lies wholly inside the range. */
    ghost predicate CoversEntry(off: nat, room: nat)
      requires |entries| == |offsets|
    {
      exists k :: 0 <= k < |entries| && Inside(k, off, room)
    }

    predicate Inside(k: nat, off: nat, room: nat)
      requires k < |entries| == |offsets|
    {
      entries[k].length > 0 && off <= offsets[k] && offsets[k] + entries[k].length <= off + room
    }

    /** The entry has bytes in the range. */
    predicate Touches(k: nat, off: nat, room: nat)
      requires k < |entries| == |offsets|
    {
      entries[k].length > 0 && room > 0 && offsets[k] < off + room && off < offsets[k] + entries[k].length
    }

    ghost predicate Lost(st: Store, k: nat)
      requires k < |entries|
    {
      ReadChunk(sum, st, entries[k].chunkID).None?
    }

    /** The first entry in the range whose chunk cannot be fetched. */
    ghost predicate FirstLost(st: Store, k: nat, off: nat, room: nat)
      requires k < |entries| == |offsets|
    {
      Touches(k, off, room) && Lost(st, k) && forall j :: 0 <= j < k && Touches(j, off, room) ==> !Lost(st, j)
    }

    /** No entry goes past the file's size. */
    ghost predicate WithinSize()
      requires |entries| == |offsets|
    {
      forall k :: 0 <= k < |entries| ==> offsets[k] + entries[k].length <= size
    }

    /** A read of entries as long as their chunks: it gets to the end unless some chunk is lost, and then to the first such. */
    ghost predicate Outcome(st: Store, off: nat, room: nat, n: nat, ok: bool)
      requires |entries| == |offsets|
    {
      if ok then forall k :: 0 <= k < |entries| && Touches(k, off, room) ==> !Lost(st, k)
      else exists k :: 0 <= k < |entries| && FirstLost(st, k, off, room) && n == Lead(k, off)
    }

    /** The first `n` bytes needed no lost chunk, and the next entry starts there. */
    ghost predicate Progress(st: Store, off: nat, room: nat, n: nat)
      requires |entries| == |offsets|
    {
      && (forall k :: 0 <= k < |entries| && Touches(k, off, n) ==> !Lost(st, k))
      && (n == 0 || n == room || exists i :: 0 <= i < |entries| && offsets[i] + entries[i].length == off + n)
    }

    /** How many bytes of the range come before the entry. */
    function Lead(k: nat, off: nat): nat
      requires k < |entries| == |offsets|
    {
      if off <= offsets[k] then offsets[k] - off else 0
    }

    /** What a failing read leaves behind in the buffer from where it failed: bytes delivered to a direct fetch. */
    ghost function Spilled(st: Store, off: int, room: nat): Bytes
      requires content.ByManifest? ==> |entries| == |offsets|
      reads this`cache
    {
      if !content.ByManifest? || off < 0 then [] else
        var k := FirstFrom(entries, offsets, off, 0);
        if k < |entries| && Direct(k, off, room) then Landed(st, entries[k].chunkID, entries[k].length) else []
    }

    /** What a read that fails at this entry leaves in the buffer from there: what was delivered, if all of it had room. */
    ghost function LeftBy(st: Store, k: nat, off: nat, room: nat): Bytes
      requires k < |entries| == |offsets|
    {
      if Inside(k, off, room) then Landed(st, entries[k].chunkID, entries[k].length) else []
    }

    constructor (sum: Bytes -> Digest, content: Content, entries: seq<Entry>, size: nat)
      ensures Valid() && this.sum == sum && this.content == content && this.entries == entries && this.size == size
      ensures Cumulative(entries, offsets) && cache == map[]
    {
      this.sum, this.content, this.entries, this.size := sum, content, entries, size;
      var offs: seq<nat> := [];
      var off := 0;
      for i := 0 to |entries|
        invariant |offs| == i
        invariant off == if i == 0 then 0 else offs[i - 1] + entries[i - 1].length
        invariant i > 0 ==> offs[0] == 0
        invariant forall j :: 0 <= j < i - 1 ==> offs[j + 1] == offs[j] + entries[j].length
      {
        offs := offs + [off];
        off := off + entries[i].length;
      }
      offsets := offs;
      cache, cacheQ := map[], [];
    }

    /** Adds a chunk, evicting the oldest past the bound. */
    method Store(id: ChunkID, buf: Bytes)
      requires Valid() && sum(buf) == id
      modifies this
      ensures Valid() && cache.Keys <= old(cache.Keys) + {id}
      ensures id in old(cache) ==> cache == old(cache) && cacheQ == old(cacheQ)
      ensures cacheQ == Remembered(old(cacheQ), true, id)
      ensures id in cache && (id !in old(cache) ==> cache[id] == buf)
      ensures forall x :: x in cache && x != id ==> x in old(cache) && cache[x] == old(cache)[x]
    {
      if id in cache { return; }
      cache := cache[id := buf];
      cacheQ := cacheQ + [id];
      if |cacheQ| > CACHE_ENTRIES {
        var oldest := cacheQ[0];
        FirstGone(cacheQ);
        assert cacheQ[1..] == old(cacheQ)[1..] + [id];
        cacheQ := cacheQ[1..];
        cache := cache - {oldest};
      }
    }

    /** A chunk's bytes, from the cache or fetched, verified and cached. */
    method ChunkBytes(st: Store, id: ChunkID) returns (b: Option<Bytes>)
      requires Valid()
      modifies this
      ensures Valid() && (b.Some? ==> sum(b.value) == id)
      ensures b.Some? <==> id in old(cache) || ReadChunk(sum, st, id).Some?
      ensures b.None? ==> cache == old(cache)
      ensures b.Some? ==> id in cache && cache[id] == b.value && (id in old(cache) ==> cache == old(cache))
      ensures b.Some? && id !in old(cache) ==> b == ReadChunk(sum, st, id)
      ensures cacheQ == Remembered(old(cacheQ), b.Some?, id)
      ensures forall x :: x in cache && x != id ==> x in old(cache) && cache[x] == old(cache)[x]
      ensures old(Fetched(st)) ==> Fetched(st)
    {
      if id in cache { return Some(cache[id]); }
      b := ReadChunk(sum, st, id);
      if b.Some? {
        Store(id, b.value);
      }
    }

    /** sort.Search for the first entry that ends after `off`. */
    method Search(off: nat) returns (k: nat)
      requires Cumulative(entries, offsets)
      ensures k == FirstFrom(entries, offsets, off, 0)
    {
      var lo, hi := 0, |entries|;
      while lo < hi
        invariant 0 <= lo <= hi <= |entries|
        invariant forall i :: 0 <= i < lo ==> offsets[i] + entries[i].length <= off
        invariant hi < |entries| ==> offsets[hi] + entries[hi].length > off
      {
        var mid := lo + (hi - lo) / 2;
        if offsets[mid] + entries[mid].length > off {
          hi := mid;
        } else {
          EndsAscend(entries, offsets, mid);
          lo := mid + 1;
        }
      }
      k := lo;
      FirstIs(entries, offsets, off, k);
    }

    /** A chunk for the caller's buffer through the cache. */
    method ReadCached(st: Store, p: array<Byte>, at: nat, off: nat, k: nat, ghost b: Bytes) returns (m: nat, ok: bool)
      requires Valid() && Names(b, k) && |entries| == |offsets| && offsets[k] <= off < offsets[k] + |b| && at < p.Length
      modifies this, p
      ensures Valid() && (ok <==> entries[k].chunkID in old(cache) || ReadChunk(sum, st, entries[k].chunkID).Some?)
      ensures ok ==> Copied(old(p[..]), p[..], at, b[off - offsets[k]..], m)
      ensures !ok ==> m == 0 && cache == old(cache) && p[..] == old(p[..])
      ensures ok ==> entries[k].chunkID in cache
      ensures cacheQ == Remembered(old(cacheQ), ok, entries[k].chunkID)
      ensures old(Fetched(st)) ==> Fetched(st)
    {
      var c := ChunkBytes(st, entries[k].chunkID);
      if c.None? { return 0, false; }
      assert c.value == b;
      m := Copy(p, at, c.value[off - offsets[k]..]);
      ok := true;
    }

    /** A chunk straight into the caller's buffer. */
    method ReadDirect(st: Store, p: array<Byte>, at: nat, k: nat, ghost b: Bytes) returns (ok: bool)
      requires Names(b, k) && 0 < entries[k].length && at + entries[k].length <= p.Length
      modifies p
      ensures ok <==> ReadChunk(sum, st, entries[k].chunkID).Some? && |ReadChunk(sum, st, entries[k].chunkID).value| == entries[k].length
      ensures ok ==> |b| == entries[k].length && Copied(old(p[..]), p[..], at, b, entries[k].length)
      ensures !ok ==> Pasted(old(p[..]), p[..], at, Landed(st, entries[k].chunkID, entries[k].length))
    {
      hide Pasted, Copied, Landed;
      ok := FetchInto(sum, st, entries[k].chunkID, p, at, entries[k].length);
      if ok {
        ReadIsNamed(this, st, b, k);
        PastedCopied(old(p[..]), p[..], at, b);
      }
    }

    /** One turn of ReadAt's loop: what is left of one chunk, by either path. */
    method ReadPiece(st: Store, p: array<Byte>, at: nat, off: nat, k: nat, ghost b: Bytes) returns (m: nat, ok: bool)
      requires Valid() && Names(b, k) && |entries| == |offsets| && at < p.Length
      requires content.ByManifest? && k == FirstFrom(entries, offsets, off, 0) && offsets[k] <= off < offsets[k] + entries[k].length
      modifies this, p
      ensures Valid() && (ok <==> old(Readable(st, k, off, p.Length - at)))
      ensures ok ==> Copied(old(p[..]), p[..], at, b[off - offsets[k]..], m)
      ensures !ok ==> m == 0 && cache == old(cache)
      ensures ok ==> if old(Direct(k, off, p.Length - at)) then cache == old(cache) else entries[k].chunkID in cache
      ensures cacheQ == Remembered(old(cacheQ), ok && !old(Direct(k, off, p.Length - at)), entries[k].chunkID)
      ensures !ok ==> Pasted(old(p[..]), p[..], at, Spilled(st, off, p.Length - at))
      ensures old(Fetched(st)) ==> Fetched(st)
    {
      hide FirstFrom, Fetched, Pasted, Copied, Spilled, Landed, ReadChunk, Valid;
      var room := p.Length - at;
      PieceSpills(this, st, k, off, room);
      if Direct(k, off, room) {
        ok := ReadDirect(st, p, at, k, b);
        m := if ok then entries[k].length else 0;
      } else {
        ghost var was := p[..];
        m, ok := ReadCached(st, p, at, off, k, b);
        if !ok { PastedNowhere(was, at); }
      }
    }

    /** What the loop has put into the buffer, and what is still to come, make the whole. */
    ghost predicate Sofar(was: Bytes, is': Bytes, chunks: seq<Bytes>, off: nat, n: nat) {
      && |chunks| == |entries| == |offsets| && n <= |is'| == |was| && is'[n..] == was[n..]
      && is'[..n] + Assembled(chunks, entries, offsets, size, off + n, |was| - n) ==
         Assembled(chunks, entries, offsets, size, off, |was|)
    }

    /** One turn: nothing more when no entry covers the offset, else one piece. */
    method ReadNext(st: Store, p: array<Byte>, off: nat, n: nat, ghost chunks: seq<Bytes>, ghost was: Bytes)
      returns (m: nat, ok: bool)
      requires Valid() && Holding(chunks) && content.ByManifest? && Sofar(was, p[..], chunks, off, n)
      requires n < p.Length && off + n < size
      modifies this, p
      ensures Valid() && (ok <==> !old(FirstFails(st, off + n, p.Length - n)))
      ensures ok ==> Sofar(was, p[..], chunks, off, n + m) && (m == 0 ==> FirstFrom(entries, offsets, off + n, 0) == |entries|)
      ensures !ok ==> cache == old(cache) && p[..n] <= Assembled(chunks, entries, offsets, size, off, p.Length)
      ensures !ok ==> Pasted(was[n..], p[n..], 0, Spilled(st, off + n, p.Length - n))
      ensures old(OnePiece(st, chunks, off + n, p.Length - n)) ==> ok && n + m == p.Length
      ensures old(Fetched(st)) ==> Fetched(st)
      ensures old(Fetched(st)) && Measured(chunks) && Progress(st, off, p.Length, n) ==>
                if ok then Progress(st, off, p.Length, n + m) else Outcome(st, off, p.Length, n, false)
    {
      hide Assembled, FirstFrom, Sofar, Spilled, Pasted, Copied, Progress, Outcome, Fetched, Lost, Valid, Landed;
      var k := Search(off + n);
      if k == |entries| { return 0, true; }
      SofarSize(this, was, p[..], chunks, off, n);
      Covers(entries, offsets, off + n, k);
      ghost var now, exact := p[..], Fetched(st) && Measured(chunks) && Progress(st, off, p.Length, n);
      if exact { ReadableIffThere(this, st, k, off + n, p.Length - n, chunks[k]); }
      m, ok := ReadPiece(st, p, n, off + n, k, chunks[k]);
      if ok {
        CopiedLength(now, p[..], n, chunks[k][off + n - offsets[k]..], m);
        SofarNext(this, was, now, p[..], chunks, off, n, k, m);
        if exact { ProgressNext(this, st, off, p.Length, n, k, m); }
      } else {
        SofarFailed(this, was, now, p[..], chunks, off, n, Spilled(st, off + n, p.Length - n));
        if exact { ProgressFailed(this, st, off, p.Length, n, k); }
      }
    }

    method ReadPieces(st: Store, p: array<Byte>, off: nat, ghost chunks: seq<Bytes>) returns (n: nat, ok: bool)
      requires Valid() && Holding(chunks) && content.ByManifest?
      modifies this, p
      ensures Valid() && n <= p.Length && (old(Fetched(st)) ==> Fetched(st))
      ensures Available(st) && Measured(chunks) ==> ok
      ensures ok ==> p[..n] == Assembled(chunks, entries, offsets, size, off, p.Length) && p[n..] == old(p[n..])
      ensures !ok ==> p[..n] <= Assembled(chunks, entries, offsets, size, off, p.Length)
      ensures !ok ==> Pasted(old(p[n..]), p[n..], 0, Spilled(st, off + n, p.Length - n))
      ensures off < size && p.Length > 0 && old(FirstFails(st, off, p.Length)) ==> !ok && n == 0 && cache == old(cache)
      ensures off < size && p.Length > 0 && old(OnePiece(st, chunks, off, p.Length)) ==> ok && n == p.Length
      ensures old(Fetched(st)) && Measured(chunks) && WithinSize() ==> Outcome(st, off, p.Length, n, ok)
    {
      hide Assembled, FirstFrom, Sofar, Spilled, Pasted, Copied, Progress, Outcome, Fetched, FirstFails, OnePiece, Available, Measured, WithinSize;
      n := 0;
      ghost var was := p[..];
      ghost var exact := Fetched(st) && Measured(chunks) && WithinSize();
      SofarStart(this, was, chunks, off);
      ProgressStart(this, st, off, p.Length);
      while n < p.Length && off + n < size
        invariant Valid() && n <= p.Length && Sofar(was, p[..], chunks, off, n) && (n == 0 ==> cache == old(cache))
        invariant old(FirstFails(st, off, p.Length)) ==> n == 0
        invariant old(OnePiece(st, chunks, off, p.Length)) ==> n == 0 || n == p.Length
        invariant old(Fetched(st)) ==> Fetched(st)
        invariant exact ==> Progress(st, off, p.Length, n)
        decreases p.Length - n
      {
        var m;
        if Available(st) && Measured(chunks) { AvailableReadable(this, st, chunks, off + n, p.Length - n); }
        m, ok := ReadNext(st, p, off, n, chunks, was);
        if !ok { return; }
        SofarSize(this, was, p[..], chunks, off, n + m);
        n := n + m;
        if m == 0 { break; }
      }
      SofarEnd(this, was, p[..], chunks, off, n);
      if exact { ProgressEnd(this, st, off, p.Length, n); }
      ok := true;
    }

    /** A read of a file of one chunk, which is fetched whole. */
    method ReadInline(st: Store, p: array<Byte>, off: nat, ghost b: Bytes) returns (n: nat, err: ReadError)
      requires Valid() && content.Inline? && sum(b) == content.chunk && NoCollision(sum, b)
      modifies this, p
      ensures Valid() && n <= p.Length && (ReadChunk(sum, st, content.chunk).Some? ==> err != FetchFailed)
      ensures err != FetchFailed ==> err == if off >= |b| then EOF else NoError
      ensures err != FetchFailed ==> p[..n] == if off >= |b| then [] else b[off..][..Min(p.Length, |b| - off)]
      ensures p[n..] == old(p[n..]) && (err == FetchFailed ==> n == 0) && (old(Fetched(st)) ==> Fetched(st))
    {
      var c := ChunkBytes(st, content.chunk);
      if c.None? { return 0, FetchFailed; }
      assert c.value == b;
      if off >= |c.value| { return 0, EOF; }
      n := Copy(p, 0, c.value[off..]);
      err := NoError;
    }

    /**
     Any read, whatever was cached before and whatever is cached now: the bytes the chunks give at that offset, and
     nothing after them is touched. A read that fails returns a part of them from the front, and after it the buffer
     holds what a direct fetch had already delivered, not yet verified. That is nothing unless some entry lies wholly
     inside the range asked for. A read that one chunk fills succeeds if that chunk can be had.
     */
    method ReadAt(st: Store, p: array<Byte>, off: int, ghost chunks: seq<Bytes>) returns (n: nat, err: ReadError)
      requires Valid() && Holding(chunks)
      modifies this, p
      ensures Valid() && n <= p.Length && (old(Fetched(st)) ==> Fetched(st))
      ensures Available(st) && Measured(chunks) ==> err != FetchFailed
      ensures err != FetchFailed ==> p[..n] == Text(chunks, off, p.Length) && p[n..] == old(p[n..])
      ensures err != FetchFailed ==>
                err == if off < 0 then NegativeOffset
                       else if off >= size || (content.Inline? && off >= |chunks[0]|) || (!content.Inline? && n == 0) then EOF
                       else NoError
      ensures err == FetchFailed ==> off >= 0 && p[..n] <= Text(chunks, off, p.Length)
      ensures err == FetchFailed ==> Pasted(old(p[n..]), p[n..], 0, Spilled(st, off + n, p.Length - n))
      ensures err == FetchFailed && (content.ByManifest? ==> !CoversEntry(off, p.Length)) ==> p[n..] == old(p[n..])
      ensures content.ByManifest? && 0 <= off < size && p.Length > 0 && old(FirstFails(st, off, p.Length)) ==>
                err == FetchFailed && n == 0 && cache == old(cache)
      ensures content.ByManifest? && 0 <= off < size && p.Length > 0 && old(OnePiece(st, chunks, off, p.Length)) ==>
                err == NoError && n == p.Length
      ensures content.ByManifest? && 0 <= off < size && old(Fetched(st)) && Measured(chunks) && WithinSize() ==>
                Outcome(st, off, p.Length, n, err != FetchFailed)
    {
      hide Assembled, FirstFails, OnePiece, Outcome, Fetched, WithinSize, CoversEntry, Valid, Readable, Direct, Pasted, Spilled, FirstFrom;
      if off < 0 { return 0, NegativeOffset; }
      if off >= size { return 0, EOF; }
      if content.Inline? {
        n, err := ReadInline(st, p, off, chunks[0]);
        PastedNothing(p[n..]);
        NothingSpilled(this, st, off + n, p.Length - n);
        return;
      }
      if content.NoContent? { return 0, EOF; }
      var ok;
      n, ok := ReadPieces(st, p, off, chunks);
      if !ok {
        if !CoversEntry(off, p.Length) {
          SpillNeedsEntry(this, st, off, n, p.Length);
          PastedIsSame(old(p[n..]), p[n..]);
        }
        return n, FetchFailed;
      }
      return n, if n == 0 then EOF else NoError;
    }

    /** The reader stands for `data`: its chunks are the pieces of it, each as long as its entry says. */
    ghost predicate Opened(data: Bytes) {
      Holding(PiecesOf(data)) && Measured(PiecesOf(data)) && size == |data| && Spans(data)
    }

    /** The entries end where the data does. */
    ghost predicate Spans(data: Bytes) {
      match content
      case NoContent => data == []
      case Inline(_) => true
      case ByManifest(_) =>
        |offsets| == |entries| && if entries == [] then data == [] else
          offsets[|entries| - 1] + entries[|entries| - 1].length == |data|
    }

    /** The bytes of `data` that each entry stands for. */
    ghost function PiecesOf(data: Bytes): seq<Bytes> {
      match content
      case NoContent => []
      case Inline(_) => [data]
      case ByManifest(_) =>
        if |offsets| != |entries| then [] else
          seq(|entries|, i requires 0 <= i < |entries| => Cut(data, offsets[i], entries[i].length))
    }

    /**
     Reading an opened file: exactly the requested slice, all of it unless a chunk cannot be fetched. Bytes past
     those returned are untouched unless the read failed. With a cache filled from this store it is known beforehand
     whether it fails, where, and what that leaves in the buffer.
     */
    method ReadStored(st: Store, p: array<Byte>, off: int, ghost data: Bytes) returns (n: nat, err: ReadError)
      requires Valid() && Opened(data)
      modifies this, p
      ensures Valid() && n <= p.Length && (Available(st) ==> err != FetchFailed)
      ensures n > 0 ==> 0 <= off && off + n <= |data| && p[..n] == data[off..off + n]
      ensures err != FetchFailed ==>
                && p[n..] == old(p[n..])
                && n == (if 0 <= off < |data| then Min(p.Length, |data| - off) else 0)
                && err == if off < 0 then NegativeOffset
                          else if off >= |data| || (content.ByManifest? && p.Length == 0) then EOF
                          else NoError
      ensures err == FetchFailed ==> Pasted(old(p[n..]), p[n..], 0, Spilled(st, off + n, p.Length - n))
      ensures err == FetchFailed && (content.ByManifest? ==> off >= 0 && !CoversEntry(off, p.Length)) ==> p[n..] == old(p[n..])
      ensures content.ByManifest? && 0 <= off < |data| && old(Fetched(st)) ==>
                Fetched(st) && Exactly(st, old(p[n..]), p[n..], off, p.Length, n, err != FetchFailed)
    {
      hide Pasted, Spilled, Outcome, Fetched, FirstFails, OnePiece, CoversEntry, Valid, Available, Exactly, WithinSize, Cumulative, Measured, Holding, Opened, Text, PiecesOf;
      TextIsSlice(this, data, off, p.Length);
      OpenedIs(this, data);
      n, err := ReadAt(st, p, off, PiecesOf(data));
      PrefixOfSlice(data, off, p.Length, p[..n]);
      if content.ByManifest? && 0 <= off < |data| && old(Fetched(st)) {
        OutcomeExactly(this, st, old(p[n..]), p[n..], off, p.Length, n, err != FetchFailed);
      }
    }

    /**
     It failed exactly if some entry in the range has lost its chunk. Then it returned what comes before the first of
     these, and what was delivered of that one is in the buffer; the rest of which is as it was exactly if the entry
     does not lie wholly inside the range, or the bytes delivered are those that were there.
     */
    ghost predicate Exactly(st: Store, was: Bytes, is': Bytes, off: nat, room: nat, n: nat, ok: bool)
      requires |entries| == |offsets|
    {
      && (!ok <==> exists k :: 0 <= k < |entries| && Touches(k, off, room) && Lost(st, k))
      && forall k :: 0 <= k < |entries| && FirstLost(st, k, off, room) ==>
                       && n == Lead(k, off) && Pasted(was, is', 0, LeftBy(st, k, off, room))
                       && (is' == was <==> LeftBy(st, k, off, room) <= was)
    }
  }

  lemma FirstGone(q: seq<ChunkID>)
    requires q != [] && forall i, j :: 0 <= i < j < |q| ==> q[i] != q[j]
    ensures forall x :: x in q[1..] <==> x in q && x != q[0]
  {
    assert q == [q[0]] + q[1..];
  }

  /** `src` was copied to `at`, as much of it as fits. */
  ghost predicate Copied(was: Bytes, is': Bytes, at: nat, src: Bytes, m: nat) {
    && |is'| == |was| && at + m <= |was| && m == Min(|was| - at, |src|)
    && is'[..at] == was[..at] && is'[at..at + m] == src[..m] && is'[at + m..] == was[at + m..]
  }

  /** `src` overwrites what was at `at`. */
  ghost predicate Pasted(was: Bytes, is': Bytes, at: nat, src: Bytes) {
    && |is'| == |was| && at + |src| <= |was|
    && is'[..at] == was[..at] && is'[at..at + |src|] == src && is'[at + |src|..] == was[at + |src|..]
  }

  lemma {:induction false} EndsAscend(es: seq<Entry>, offsets: seq<nat>, k: nat)
    requires Cumulative(es, offsets) && k < |es|
    ensures forall i :: 0 <= i <= k ==> offsets[i] + es[i].length <= offsets[k] + es[k].length
  {
    if k > 0 {
      EndsAscend(es, offsets, k - 1);
    }
  }

  function Cut(data: Bytes, off: nat, n: nat): Bytes {
    if off + n <= |data| then data[off..off + n] else []
  }

  /** An offset before the end of the entry the search finds is not before its start. */
  lemma Covers(es: seq<Entry>, offsets: seq<nat>, off: nat, k: nat)
    requires Cumulative(es, offsets) && k == FirstFrom(es, offsets, off, 0) < |es|
    ensures offsets[k] <= off < offsets[k] + es[k].length
  {
    assert k > 0 ==> offsets[k - 1] + es[k - 1].length <= off && offsets[k - 1 + 1] == offsets[k - 1] + es[k - 1].length;
  }

  lemma AssembledStep(chunks: seq<Bytes>, es: seq<Entry>, offsets: seq<nat>, size: nat, off: nat, want: nat, k: nat)
    requires |chunks| == |es| == |offsets| && want > 0 && off < size && k == FirstFrom(es, offsets, off, 0) < |es|
    requires offsets[k] <= off < offsets[k] + |chunks[k]|
    ensures var piece := chunks[k][off - offsets[k]..]; var m := Min(want, |piece|);
            Assembled(chunks, es, offsets, size, off, want) == piece[..m] + Assembled(chunks, es, offsets, size, off + m, want - m)
  {
  }

  lemma SofarStart(fr: FileReader, was: Bytes, chunks: seq<Bytes>, off: nat)
    requires |chunks| == |fr.entries| == |fr.offsets|
    ensures fr.Sofar(was, was, chunks, off, 0)
  {
    hide Assembled;
    assert was[..0] == [];
  }

  lemma SofarSize(fr: FileReader, was: Bytes, is': Bytes, chunks: seq<Bytes>, off: nat, n: nat)
    requires fr.Sofar(was, is', chunks, off, n)
    ensures n <= |is'| == |was|
  {
  }

  lemma SofarEnd(fr: FileReader, was: Bytes, is': Bytes, chunks: seq<Bytes>, off: nat, n: nat)
    requires fr.Sofar(was, is', chunks, off, n)
    requires n == |was| || off + n >= fr.size || FirstFrom(fr.entries, fr.offsets, off + n, 0) == |fr.entries|
    ensures is'[..n] == Assembled(chunks, fr.entries, fr.offsets, fr.size, off, |was|) && is'[n..] == was[n..]
  {
    AssembledNothing(chunks, fr.entries, fr.offsets, fr.size, off + n, |was| - n);
    assert is'[..n] + [] == is'[..n];
  }

  lemma SofarNext(fr: FileReader, was: Bytes, now: Bytes, is': Bytes, chunks: seq<Bytes>, off: nat, n: nat, k: nat, m: nat)
    requires fr.Sofar(was, now, chunks, off, n) && n < |was| && off + n < fr.size
    requires k == FirstFrom(fr.entries, fr.offsets, off + n, 0) < |fr.entries|
    requires fr.offsets[k] <= off + n < fr.offsets[k] + |chunks[k]|
    requires Copied(now, is', n, chunks[k][off + n - fr.offsets[k]..], m)
    ensures fr.Sofar(was, is', chunks, off, n + m) && m > 0
  {
    hide Assembled, FirstFrom;
    AssembledStep(chunks, fr.entries, fr.offsets, fr.size, off + n, |was| - n, k);
    CopiedTail(now, is', n, chunks[k][off + n - fr.offsets[k]..], m);
    assert was[n + m..] == was[n..][m..];
  }

  lemma SofarFailed(fr: FileReader, was: Bytes, now: Bytes, is': Bytes, chunks: seq<Bytes>, off: nat, n: nat, b: Bytes)
    requires fr.Sofar(was, now, chunks, off, n) && Pasted(now, is', n, b)
    ensures is'[..n] <= Assembled(chunks, fr.entries, fr.offsets, fr.size, off, |was|) && Pasted(was[n..], is'[n..], 0, b)
  {
    hide Assembled;
    PastedTail(now, is', n, b);
  }

  // --- how far a read gets --------------------------------------------------------------------

  lemma ProgressStart(fr: FileReader, st: Store, off: nat, room: nat)
    requires |fr.entries| == |fr.offsets|
    ensures fr.Progress(st, off, room, 0)
  {
  }

  lemma AvailableReadable(fr: FileReader, st: Store, chunks: seq<Bytes>, off: nat, room: nat)
    requires fr.content.ByManifest? && fr.Holding(chunks) && fr.Available(st) && fr.Measured(chunks)
    ensures !fr.FirstFails(st, off, room)
  {
    var k := FirstFrom(fr.entries, fr.offsets, off, 0);
    if k < |fr.entries| {
      assert fr.Names(chunks[k], k) && ReadChunk(fr.sum, st, fr.entries[k].chunkID).Some?;
    }
  }

  lemma ReadableIffThere(fr: FileReader, st: Store, k: nat, off: nat, room: nat, b: Bytes)
    requires fr.Fetched(st) && fr.Names(b, k) && |fr.entries| == |fr.offsets| && |b| == fr.entries[k].length
    ensures fr.Readable(st, k, off, room) <==> !fr.Lost(st, k)
  {
  }

  /** Entries start no earlier than the ones before them end. */
  lemma {:induction false} StartsAscend(es: seq<Entry>, offsets: seq<nat>, i: nat, k: nat)
    requires Cumulative(es, offsets) && i < k < |es|
    ensures offsets[i] + es[i].length <= offsets[k]
  {
    assert offsets[k - 1 + 1] == offsets[k - 1] + es[k - 1].length;
    if i < k - 1 {
      StartsAscend(es, offsets, i, k - 1);
    }
  }

  /** The entry that covers the end of another starts there. */
  lemma NextStarts(es: seq<Entry>, offsets: seq<nat>, i: nat, k: nat)
    requires Cumulative(es, offsets) && i < |es| && k == FirstFrom(es, offsets, offsets[i] + es[i].length, 0) < |es|
    ensures offsets[k] == offsets[i] + es[i].length
  {
    Covers(es, offsets, offsets[i] + es[i].length, k);
    if k < i {
      StartsAscend(es, offsets, k, i);
    }
    if i < k {
      StartsAscend(es, offsets, i, k);
    }
  }

  lemma ProgressEnd(fr: FileReader, st: Store, off: nat, room: nat, n: nat)
    requires |fr.entries| == |fr.offsets| && fr.Progress(st, off, room, n) && fr.WithinSize()
    requires n == room || off + n >= fr.size || FirstFrom(fr.entries, fr.offsets, off + n, 0) == |fr.entries|
    ensures fr.Outcome(st, off, room, n, true)
  {
    forall k | 0 <= k < |fr.entries| && fr.Touches(k, off, room) ensures !fr.Lost(st, k) {
      assert fr.Touches(k, off, n);
    }
  }

  lemma ProgressFailed(fr: FileReader, st: Store, off: nat, room: nat, n: nat, k: nat)
    requires Cumulative(fr.entries, fr.offsets) && fr.Progress(st, off, room, n) && n < room
    requires k == FirstFrom(fr.entries, fr.offsets, off + n, 0) < |fr.entries| && fr.Lost(st, k)
    ensures fr.Outcome(st, off, room, n, false)
  {
    Covers(fr.entries, fr.offsets, off + n, k);
    forall j | 0 <= j < k && fr.Touches(j, off, room) ensures !fr.Lost(st, j) {
      assert fr.Touches(j, off, n);
    }
    if n > 0 {
      var i :| 0 <= i < |fr.entries| && fr.offsets[i] + fr.entries[i].length == off + n;
      NextStarts(fr.entries, fr.offsets, i, k);
    }
    assert fr.FirstLost(st, k, off, room);
  }

  lemma ProgressNext(fr: FileReader, st: Store, off: nat, room: nat, n: nat, k: nat, m: nat)
    requires Cumulative(fr.entries, fr.offsets) && fr.Progress(st, off, room, n) && n < room
    requires k == FirstFrom(fr.entries, fr.offsets, off + n, 0) < |fr.entries| && !fr.Lost(st, k)
    requires m == Min(room - n, fr.offsets[k] + fr.entries[k].length - (off + n))
    ensures fr.Progress(st, off, room, n + m)
  {
    forall j | 0 <= j < |fr.entries| && fr.Touches(j, off, n + m) ensures !fr.Lost(st, j) {
      if !fr.Touches(j, off, n) && j != k {
        if j > k {
          StartsAscend(fr.entries, fr.offsets, k, j);
        }
      }
    }
    assert n + m == room || fr.offsets[k] + fr.entries[k].length == off + n + m;
  }

  lemma OpenedIs(fr: FileReader, data: Bytes)
    requires fr.Opened(data)
    ensures fr.Holding(fr.PiecesOf(data)) && fr.Measured(fr.PiecesOf(data)) && fr.size == |data|
    ensures (fr.content.Inline? ==> fr.PiecesOf(data) == [data]) && (fr.content.NoContent? ==> data == [])
    ensures fr.content.ByManifest? ==> Cumulative(fr.entries, fr.offsets) && fr.WithinSize()
  {
    if fr.content.ByManifest? && fr.entries != [] {
      EndsAscend(fr.entries, fr.offsets, |fr.entries| - 1);
    }
  }

  lemma OutcomeIff(fr: FileReader, st: Store, off: nat, room: nat, n: nat, ok: bool)
    requires |fr.entries| == |fr.offsets| && fr.Outcome(st, off, room, n, ok)
    ensures !ok <==> exists k :: 0 <= k < |fr.entries| && fr.Touches(k, off, room) && fr.Lost(st, k)
  {
  }

  lemma OutcomeAt(fr: FileReader, st: Store, off: nat, room: nat, n: nat, ok: bool, k: nat)
    requires |fr.entries| == |fr.offsets| && fr.Outcome(st, off, room, n, ok)
    requires k < |fr.entries| && fr.FirstLost(st, k, off, room)
    ensures !ok && n == fr.Lead(k, off)
  {
    if !ok {
      var j :| 0 <= j < |fr.entries| && fr.FirstLost(st, j, off, room) && n == fr.Lead(j, off);
      assert j == k;
    }
  }

  lemma SpilledIsLeft(fr: FileReader, st: Store, off: nat, room: nat, n: nat, k: nat)
    requires fr.content.ByManifest? && Cumulative(fr.entries, fr.offsets) && k < |fr.entries| && n <= room
    requires fr.FirstLost(st, k, off, room) && n == fr.Lead(k, off) && fr.Fetched(st)
    ensures fr.Spilled(st, off + n, room - n) == fr.LeftBy(st, k, off, room)
  {
    forall j | 0 <= j < k ensures fr.offsets[j] + fr.entries[j].length <= off + n {
      StartsAscend(fr.entries, fr.offsets, j, k);
    }
    FirstIs(fr.entries, fr.offsets, off + n, k);
  }

  lemma OutcomeExactly(fr: FileReader, st: Store, was: Bytes, is': Bytes, off: nat, room: nat, n: nat, ok: bool)
    requires fr.content.ByManifest? && Cumulative(fr.entries, fr.offsets) && n <= room && fr.Fetched(st)
    requires fr.Outcome(st, off, room, n, ok) && (!ok ==> Pasted(was, is', 0, fr.Spilled(st, off + n, room - n)))
    ensures fr.Exactly(st, was, is', off, room, n, ok)
  {
    hide Pasted, fr.Spilled, fr.Outcome, fr.Fetched, fr.LeftBy, fr.Touches, fr.Lost, fr.FirstLost;
    OutcomeIff(fr, st, off, room, n, ok);
    forall k | 0 <= k < |fr.entries| && fr.FirstLost(st, k, off, room)
      ensures n == fr.Lead(k, off) && Pasted(was, is', 0, fr.LeftBy(st, k, off, room))
      ensures is' == was <==> fr.LeftBy(st, k, off, room) <= was
    {
      OutcomeAt(fr, st, off, room, n, ok, k);
      SpilledIsLeft(fr, st, off, room, n, k);
      UntouchedIff(was, is', fr.LeftBy(st, k, off, room));
    }
  }

  /** Only an entry that lies wholly inside the range is fetched straight into the buffer. */
  lemma SpillNeedsEntry(fr: FileReader, st: Store, off: nat, n: nat, room: nat)
    requires fr.content.ByManifest? && Cumulative(fr.entries, fr.offsets) && n <= room && !fr.CoversEntry(off, room)
    ensures fr.Spilled(st, off + n, room - n) == []
  {
    var k := FirstFrom(fr.entries, fr.offsets, off + n, 0);
    if k < |fr.entries| {
      assert !fr.Inside(k, off, room);
    }
  }

  lemma NothingSpilled(fr: FileReader, st: Store, off: int, room: nat)
    requires !fr.content.ByManifest?
    ensures fr.Spilled(st, off, room) == []
  {
  }

  lemma ReadIsNamed(fr: FileReader, st: Store, b: Bytes, k: nat)
    requires fr.Names(b, k) && ReadChunk(fr.sum, st, fr.entries[k].chunkID).Some?
    ensures ReadChunk(fr.sum, st, fr.entries[k].chunkID) == Some(b)
  {
  }

  lemma PastedCopied(was: Bytes, is': Bytes, at: nat, b: Bytes)
    requires Pasted(was, is', at, b)
    ensures Copied(was, is', at, b, |b|)
  {
  }

  lemma PieceSpills(fr: FileReader, st: Store, k: nat, off: nat, room: nat)
    requires fr.content.ByManifest? && |fr.entries| == |fr.offsets| && k == FirstFrom(fr.entries, fr.offsets, off, 0) < |fr.entries|
    ensures fr.Spilled(st, off, room) == if fr.Direct(k, off, room) then Landed(st, fr.entries[k].chunkID, fr.entries[k].length) else []
  {
  }

  lemma PrefixOfSlice(data: Bytes, off: int, want: nat, b: Bytes)
    requires b <= if 0 <= off < |data| then data[off..off + Min(want, |data| - off)] else []
    ensures |b| > 0 ==> 0 <= off && off + |b| <= |data| && b == data[off..off + |b|]
  {
  }

  lemma PastedNowhere(was: Bytes, at: nat)
    requires at <= |was|
    ensures Pasted(was, was, at, [])
  {
  }

  lemma PastedNothing(was: Bytes)
    ensures Pasted(was, was, 0, [])
  {
  }

  lemma PastedIsSame(was: Bytes, is': Bytes)
    requires Pasted(was, is', 0, [])
    ensures is' == was
  {
  }

  lemma CopiedTail(was: Bytes, is': Bytes, at: nat, src: Bytes, m: nat)
    requires Copied(was, is', at, src, m)
    ensures is'[..at + m] == was[..at] + src[..m] && is'[at + m..] == was[at + m..] && was[at + m..] == was[at..][m..]
  {
  }

  lemma CopiedLength(was: Bytes, is': Bytes, at: nat, src: Bytes, m: nat)
    requires Copied(was, is', at, src, m)
    ensures m == Min(|was| - at, |src|)
  {
  }

  lemma PastedTail(was: Bytes, is': Bytes, at: nat, b: Bytes)
    requires Pasted(was, is', at, b)
    ensures Pasted(was[at..], is'[at..], 0, b) && is'[..at] == was[..at]
  {
    assert is'[at..][..|b|] == is'[at..at + |b|] && is'[at..][|b|..] == is'[at + |b|..] && was[at..][|b|..] == was[at + |b|..];
  }

  /** A failing read leaves the rest of the buffer untouched exactly when what was delivered is what was there. */
  lemma UntouchedIff(was: Bytes, is': Bytes, b: Bytes)
    requires Pasted(was, is', 0, b)
    ensures is' == was <==> b <= was
  {
    assert is' == b + was[|b|..];
  }

  // --- an opened file reads as its bytes -----------------------------------------------------

  lemma AssembledNothing(chunks: seq<Bytes>, es: seq<Entry>, offsets: seq<nat>, size: nat, off: nat, want: nat)
    requires |chunks| == |es| == |offsets| && (want == 0 || off >= size || FirstFrom(es, offsets, off, 0) == |es|)
    ensures Assembled(chunks, es, offsets, size, off, want) == []
  {
  }

  lemma SlicesJoin(data: Bytes, off: nat, m: nat, n: nat)
    requires m <= n && off + n <= |data|
    ensures data[off..off + n] == data[off..off + m] + data[off + m..off + n]
  {
  }

  lemma OpenedSizes(fr: FileReader, data: Bytes)
    requires fr.content.ByManifest? && fr.Opened(data)
    ensures |fr.PiecesOf(data)| == |fr.entries| == |fr.offsets| && fr.size == |data|
  {
  }

  lemma SliceOfCut(data: Bytes, from: nat, end: nat, off: nat, m: nat)
    requires from <= off && off + m <= end <= |data|
    ensures data[from..end][off - from..][..m] == data[off..off + m]
  {
  }

  /** The entry that covers an offset of an opened file, and its bytes. */
  lemma EntryAt(fr: FileReader, data: Bytes, off: nat) returns (k: nat)
    requires fr.content.ByManifest? && fr.Opened(data) && off < |data|
    ensures |fr.PiecesOf(data)| == |fr.entries| == |fr.offsets| && fr.size == |data|
    ensures k == FirstFrom(fr.entries, fr.offsets, off, 0) < |fr.entries|
    ensures fr.offsets[k] <= off < fr.offsets[k] + fr.entries[k].length <= |data|
    ensures fr.PiecesOf(data)[k] == data[fr.offsets[k]..fr.offsets[k] + fr.entries[k].length]
  {
    k := FirstFrom(fr.entries, fr.offsets, off, 0);
    EndIsTotal(fr, data, off);
    Covers(fr.entries, fr.offsets, off, k);
    PieceIsCut(fr, data, k);
  }

  /** One piece of an opened file, and on from where it ends. */
  lemma SliceStep(fr: FileReader, data: Bytes, off: nat, want: nat) returns (m: nat)
    requires fr.content.ByManifest? && fr.Opened(data) && want > 0 && off < |data|
    ensures 0 < m <= want && off + m <= |data| && |fr.PiecesOf(data)| == |fr.entries| == |fr.offsets|
    ensures Assembled(fr.PiecesOf(data), fr.entries, fr.offsets, fr.size, off, want) ==
            data[off..off + m] + Assembled(fr.PiecesOf(data), fr.entries, fr.offsets, fr.size, off + m, want - m)
  {
    hide Assembled, fr.Opened, fr.PiecesOf, FirstFrom;
    var k := EntryAt(fr, data, off);
    var end := fr.offsets[k] + fr.entries[k].length;
    m := Min(want, end - off);
    AssembledStep(fr.PiecesOf(data), fr.entries, fr.offsets, fr.size, off, want, k);
    SliceOfCut(data, fr.offsets[k], end, off, m);
  }

  lemma {:induction false} AssembledIsSlice(fr: FileReader, data: Bytes, off: nat, want: nat)
    requires fr.content.ByManifest? && fr.Opened(data)
    ensures Assembled(fr.PiecesOf(data), fr.entries, fr.offsets, fr.size, off, want) ==
            if off < |data| then data[off..off + Min(want, |data| - off)] else []
    decreases want
  {
    hide Assembled, fr.Opened, fr.PiecesOf;
    OpenedSizes(fr, data);
    if want == 0 || off >= |data| {
      AssembledNothing(fr.PiecesOf(data), fr.entries, fr.offsets, fr.size, off, want);
    } else {
      var m := SliceStep(fr, data, off, want);
      AssembledIsSlice(fr, data, off + m, want - m);
      var n := Min(want, |data| - off);
      SlicesJoin(data, off, m, n);
    }
  }

  lemma PieceIsCut(fr: FileReader, data: Bytes, k: nat)
    requires fr.content.ByManifest? && fr.Opened(data) && k < |fr.entries|
    ensures fr.offsets[k] + fr.entries[k].length <= |data| || fr.entries[k].length == 0
    ensures fr.entries[k].length > 0 ==> fr.PiecesOf(data)[k] == data[fr.offsets[k]..fr.offsets[k] + fr.entries[k].length]
  {
    assert |fr.PiecesOf(data)[k]| == fr.entries[k].length;
  }

  lemma TextIsSlice(fr: FileReader, data: Bytes, off: int, want: nat)
    requires fr.Opened(data)
    ensures fr.Text(fr.PiecesOf(data), off, want) == if 0 <= off < |data| then data[off..off + Min(want, |data| - off)] else []
  {
    if fr.content.ByManifest? && off >= 0 {
      AssembledIsSlice(fr, data, off, want);
    }
    assert 0 <= off < |data| ==> data[off..][..Min(want, |data| - off)] == data[off..off + Min(want, |data| - off)];
  }

  /** Offsets inside the file are covered by some entry. */
  lemma EndIsTotal(fr: FileReader, data: Bytes, off: nat)
    requires fr.content.ByManifest? && fr.Opened(data) && off < |data|
    ensures FirstFrom(fr.entries, fr.offsets, off, 0) < |fr.entries|
  {
    var n := |fr.entries|;
    assert n > 0 && fr.offsets[n - 1] + fr.entries[n - 1].length == |data|;
  }

  // --- opening a stored file ----------------------------------------------------------

  /** Where entry i starts. */
  function Off(es: seq<Entry>, i: nat): nat
    requires i <= |es|
  {
    if i == 0 then 0 else Off(es, i - 1) + es[i - 1].length
  }

  lemma {:induction false} OffShift(es: seq<Entry>, i: nat)
    requires es != [] && i < |es|
    ensures Off(es, i + 1) == es[0].length + Off(es[1..], i)
  {
    if i > 0 {
      OffShift(es, i - 1);
    }
  }

  lemma ReadFirst(sum: Bytes -> Digest, st: Store, es: seq<Entry>, data: Bytes)
    requires es != [] && ReadEntries(sum, st, es) == Some(data)
    ensures es[0].length <= |data| && ReadChunk(sum, st, es[0].chunkID) == Some(data[..es[0].length])
    ensures ReadEntries(sum, st, es[1..]) == Some(data[es[0].length..])
  {
    var b, rest := ReadChunk(sum, st, es[0].chunkID).value, ReadEntries(sum, st, es[1..]).value;
    assert data == b + rest && |b| == es[0].length;
  }

  lemma {:induction false} EntriesTotal(sum: Bytes -> Digest, st: Store, es: seq<Entry>, data: Bytes)
    requires ReadEntries(sum, st, es) == Some(data)
    ensures Off(es, |es|) == |data|
  {
    if es != [] {
      ReadFirst(sum, st, es, data);
      EntriesTotal(sum, st, es[1..], data[es[0].length..]);
      OffShift(es, |es| - 1);
    }
  }

  /** Entries that read back as `data` cut it at their offsets. */
  lemma {:induction false} EntriesCut(sum: Bytes -> Digest, st: Store, es: seq<Entry>, data: Bytes, i: nat)
    requires ReadEntries(sum, st, es) == Some(data) && i < |es|
    ensures Off(es, i) + es[i].length <= |data|
    ensures ReadChunk(sum, st, es[i].chunkID) == Some(data[Off(es, i)..Off(es, i) + es[i].length])
  {
    hide ReadEntries, ReadChunk;
    ReadFirst(sum, st, es, data);
    if i > 0 {
      var rest, at := data[es[0].length..], Off(es[1..], i - 1);
      EntriesCut(sum, st, es[1..], rest, i - 1);
      OffShift(es, i - 1);
      assert es[1..][i - 1] == es[i];
      SliceOfSlice(data, es[0].length, at, es[i].length);
    }
  }

  lemma SliceOfSlice(data: Bytes, cut: nat, at: nat, n: nat)
    requires cut + at + n <= |data|
    ensures data[cut..][at..at + n] == data[cut + at..cut + at + n]
  {
  }

  /** No chunk of the content shares its hash with other bytes. */
  ghost predicate Unambiguous(sum: Bytes -> Digest, st: Store, c: Content) {
    ChunkIDs(st, c).Some? &&
    forall i :: 0 <= i < |ChunkIDs(st, c).value| ==>
                  var b := ReadChunk(sum, st, ChunkIDs(st, c).value[i]); b.Some? ==> NoCollision(sum, b.value)
  }

  lemma {:induction false} OffsetsAre(es: seq<Entry>, offsets: seq<nat>, i: nat)
    requires Cumulative(es, offsets) && i < |es|
    ensures offsets[i] == Off(es, i)
  {
    if i > 0 {
      OffsetsAre(es, offsets, i - 1);
      assert offsets[i - 1 + 1] == offsets[i - 1] + es[i - 1].length;
    }
  }

  lemma PieceIsNamed(st: Store, fr: FileReader, data: Bytes, i: nat)
    requires fr.content.ByManifest? && i < |fr.entries| && Cumulative(fr.entries, fr.offsets)
    requires ReadEntries(fr.sum, st, fr.entries) == Some(data)
    requires var b := ReadChunk(fr.sum, st, fr.entries[i].chunkID); b.Some? ==> NoCollision(fr.sum, b.value)
    ensures fr.Names(Cut(data, fr.offsets[i], fr.entries[i].length), i) && |Cut(data, fr.offsets[i], fr.entries[i].length)| == fr.entries[i].length
    ensures ReadChunk(fr.sum, st, fr.entries[i].chunkID).Some?
  {
    OffsetsAre(fr.entries, fr.offsets, i);
    EntriesCut(fr.sum, st, fr.entries, data, i);
  }

  lemma OpenedManifest(st: Store, fr: FileReader, m: Manifest, data: Bytes)
    requires fr.content.ByManifest? && GetManifest(st, fr.content.manifest) == Some(m) && fr.entries == m.entries
    requires Cumulative(fr.entries, fr.offsets) && fr.size == |data|
    requires ReadContent(fr.sum, st, fr.content) == Some(data) && Unambiguous(fr.sum, st, fr.content)
    ensures fr.Opened(data) && fr.Available(st)
  {
    EntriesTotal(fr.sum, st, fr.entries, data);
    if fr.entries != [] {
      OffsetsAre(fr.entries, fr.offsets, |fr.entries| - 1);
    }
    forall i | 0 <= i < |fr.entries|
      ensures fr.Names(Cut(data, fr.offsets[i], fr.entries[i].length), i) && |Cut(data, fr.offsets[i], fr.entries[i].length)| == fr.entries[i].length
      ensures ReadChunk(fr.sum, st, fr.entries[i].chunkID).Some?
    {
      assert ChunkIDs(st, fr.content).value[i] == fr.entries[i].chunkID;
      PieceIsNamed(st, fr, data, i);
    }
  }

  /** OpenFile: null when the manifest cannot be fetched; otherwise a reader of exactly the stored bytes. */
  method OpenFile(sum: Bytes -> Digest, st: Store, rec: InodeRecord) returns (fr: FileReader?)
    ensures fr == null <==> rec.content.ByManifest? && GetManifest(st, rec.content.manifest).None?
    ensures fr != null ==> fresh(fr) && fr.Valid() && fr.sum == sum && fr.content == rec.content && fr.size == rec.size
    ensures fr != null && rec.content.ByManifest? ==>
              fr.entries == GetManifest(st, rec.content.manifest).value.entries && Cumulative(fr.entries, fr.offsets) && fr.cache == map[]
    ensures fr != null && Unambiguous(sum, st, rec.content) && ReadContent(sum, st, rec.content).Some?
            && rec.size == |ReadContent(sum, st, rec.content).value|
            ==> fr.Opened(ReadContent(sum, st, rec.content).value) && fr.Available(st)
  {
    if !rec.content.ByManifest? {
      fr := new FileReader(sum, rec.content, [], rec.size);
      if rec.content.Inline? && Unambiguous(sum, st, rec.content) {
        assert ChunkIDs(st, rec.content).value[0] == rec.content.chunk;
      }
      return;
    }
    var m := GetManifest(st, rec.content.manifest);
    if m.None? { return null; }
    fr := new FileReader(sum, rec.content, m.value.entries, rec.size);
    if Unambiguous(sum, st, rec.content) && ReadContent(sum, st, rec.content).Some?
       && rec.size == |ReadContent(sum, st, rec.content).value|
    {
      OpenedManifest(st, fr, m.value, ReadContent(sum, st, rec.content).value);
    }
  }
}
