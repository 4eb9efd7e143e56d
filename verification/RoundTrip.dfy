/** Storing a file and reading it back, end to end, and what reads give where that fails. */
module RoundTrip {
  import opened Base
  import opened Manifest
  import opened Namespace
  import opened Storage
  import opened Chunking
  import opened ContentPath
  import opened FileReading

  // --- store, flush, open, read --------------------------------------------------------------

  /** A stored file's reference names its chunks and no other bytes. */
  lemma StoredUnambiguous(sum: Bytes -> Digest, st: Store, data: Bytes, size: nat, c: Content)
    requires size > 0 && ValidStore(sum, st) && CollisionFree(sum, data, size) && AllLocated(sum, st, data, size)
    requires Refers(sum, st, data, size, c)
    ensures Unambiguous(sum, st, c)
  {
    hide Cropped, DecodeBytes;
    if c.Inline? {
      assert Split(data, size)[0] == data;
      LocatedReads(sum, st, data);
    } else if c.ByManifest? {
      StoredManifest(sum, st, data, size, c);
      var es := Cropped(ManifestOf(sum, data, size)).entries;
      forall i | 0 <= i < |es| ensures ReadChunk(sum, st, es[i].chunkID).Some? && NoCollision(sum, ReadChunk(sum, st, es[i].chunkID).value) {
        CroppedEntry(sum, data, size, i);
        LocatedReads(sum, st, Split(data, size)[i]);
      }
    }
  }

  lemma CroppedEntry(sum: Bytes -> Digest, data: Bytes, size: nat, i: nat)
    requires size > 0 && i < |Cropped(ManifestOf(sum, data, size)).entries|
    ensures i < |Split(data, size)| && Cropped(ManifestOf(sum, data, size)).entries[i].chunkID == sum(Split(data, size)[i])
    ensures Cropped(ManifestOf(sum, data, size)).entries[i].length == |Split(data, size)[i]| % Pow256(4)
  {
  }

  datatype Range = Range(off: int, len: nat)

  /** The bytes of a range that exist. */
  function Slice(data: Bytes, r: Range): Bytes {
    if 0 <= r.off < |data| then data[r.off..r.off + Min(r.len, |data| - r.off)] else []
  }

  function Slices(data: Bytes, rs: seq<Range>): seq<Bytes> {
    seq(|rs|, i requires 0 <= i < |rs| => Slice(data, rs[i]))
  }

  /** Any reads on one reader, one after the other, each into its own buffer. */
  method ReadAll(fr: FileReader, st: Store, rs: seq<Range>, ghost data: Bytes) returns (out: seq<Bytes>)
    requires fr.Valid() && fr.Opened(data) && fr.Available(st)
    modifies fr
    ensures fr.Valid() && out == Slices(data, rs)
  {
    hide fr.Opened, fr.Available, fr.Valid;
    out := [];
    for i := 0 to |rs|
      invariant fr.Valid() && out == Slices(data, rs[..i])
    {
      var b := ReadRange(fr, st, rs[i], data);
      out := out + [b];
      assert rs[..i + 1] == rs[..i] + [rs[i]];
    }
    assert rs[..|rs|] == rs;
  }

  method ReadRange(fr: FileReader, st: Store, r: Range, ghost data: Bytes) returns (b: Bytes)
    requires fr.Valid() && fr.Opened(data) && fr.Available(st)
    modifies fr
    ensures fr.Valid() && b == Slice(data, r)
  {
    hide fr.Opened, fr.Available, fr.Valid, Pasted;
    var p := new Byte[r.len](_ => 0);
    var n, err := fr.ReadStored(st, p, r.off, data);
    b := p[..n];
  }

  /** A file that can be read, and whose chunks have no hash collision, reads the same after anything was stored. */
  lemma KeptContent(sum: Bytes -> Digest, st: Store, st': Store, c: Content)
    requires ValidStore(sum, st) && ValidStore(sum, st') && Kept(st, st')
    requires Unambiguous(sum, st, c) && ReadContent(sum, st, c).Some?
    ensures ReadContent(sum, st', c) == ReadContent(sum, st, c)
  {
    hide ReadEntries, DecodeBytes;
    match c
    case NoContent =>
    case Inline(id) =>
      assert ChunkIDs(st, c).value[0] == id;
      KeptReads(sum, st, st', id);
    case ByManifest(id) =>
      var es := GetManifest(st, id).value.entries;
      forall i | 0 <= i < |es| ensures ReadChunk(sum, st', es[i].chunkID) == ReadChunk(sum, st, es[i].chunkID) {
        assert ChunkIDs(st, c).value[i] == es[i].chunkID;
        EntriesThere(sum, st, es, i);
        KeptReads(sum, st, st', es[i].chunkID);
      }
      ReadEntriesAgree(sum, st, st', es);
  }

  lemma EntriesThere(sum: Bytes -> Digest, st: Store, es: seq<Entry>, i: nat)
    requires ReadEntries(sum, st, es).Some? && i < |es|
    ensures es[i].chunkID in st.locators
  {
    EntriesCut(sum, st, es, ReadEntries(sum, st, es).value, i);
  }

  /** The file needs no manifest. */
  predicate GoesInline(data: Bytes, size: nat, threshold: int)
    requires size > 0
  {
    data == [] || (|Split(data, size)| == 1 && |data| < threshold)
  }

  /**
   The round trip: for every byte string, chunk size, alignment, single-object threshold and prior state of the
   repository, storing and flushing and then any sequence of reads on one reader returns exactly the requested
   slices, by any mix of direct and cached fetches, and files stored before read as they did. The condition on the widths is the one under which the stored
   reference reads back at all.
   */
  method StoreThenRead(repo: Repo, data: Bytes, now: Time, rec: InodeRecord, rs: seq<Range>) returns (out: seq<Bytes>)
    requires repo.Valid() && CollisionFree(repo.sum, data, repo.chunkSize)
    requires GoesInline(data, repo.chunkSize, repo.singleThreshold) || WidthsFit(data, repo.chunkSize)
    modifies repo, repo.packer
    ensures repo.Valid() && Kept(old(repo.st), repo.st) && out == Slices(data, rs)
    ensures forall c :: Unambiguous(repo.sum, old(repo.st), c) && ReadContent(repo.sum, old(repo.st), c).Some? ==>
                          ReadContent(repo.sum, repo.st, c) == ReadContent(repo.sum, old(repo.st), c)
  {
    hide ReadContent, Kept, ValidStore, CollisionFree, Refers, AllLocated;
    var c := repo.StoreAndFlush(data, now);
    ghost var st := old(repo.st);
    forall x | Unambiguous(repo.sum, st, x) && ReadContent(repo.sum, st, x).Some?
      ensures ReadContent(repo.sum, repo.st, x) == ReadContent(repo.sum, st, x)
    {
      KeptContent(repo.sum, st, repo.st, x);
    }
    StoredUnambiguous(repo.sum, repo.st, data, repo.chunkSize, c);
    var fr := OpenFile(repo.sum, repo.st, rec.(content := c, size := |data|));
    out := ReadAll(fr, repo.st, rs, data);
  }

  // --- a corrupt container ---------------------------------------------------------------------

  /** Two one-byte chunks, the first of which has been overwritten in its container. */
  function Damaged(sum: Bytes -> Digest): Store {
    Store(map[sum([1]) := Locator(0, 0, 1), sum([2]) := Locator(0, 1, 1)], map[], map[], map[0 := [7, 2]], map[], 1)
  }

  /** A direct read of a damaged chunk fails, and leaves the damaged byte in the caller's buffer. */
  method CorruptReadSpills(sum: Bytes -> Digest, id: ManifestID) returns (p: array<Byte>, n: nat, err: ReadError)
    requires NoCollision(sum, [1]) && NoCollision(sum, [2])
    ensures fresh(p) && err == FetchFailed && n == 0 && p[..] == [7, 0]
  {
    var st := Damaged(sum);
    var es := [Entry(sum([1]), 1, 0), Entry(sum([2]), 1, 0)];
    var fr := new FileReader(sum, ByManifest(id), es, 2);
    p := new Byte[2](_ => 0);
    DamagedFirst(sum, fr);
    assert p[0..] == [0, 0];
    hide fr.Valid, fr.Holding, fr.FirstFails, fr.Spilled, fr.Text, fr.Available, fr.Measured;
    n, err := fr.ReadAt(st, p, 0, [[1], [2]]);
    DamagedFirst(sum, fr);
    OneByteOver(p[..]);
  }

  lemma OneByteOver(is': Bytes)
    requires |is'| == 2 && Pasted([0, 0], is'[0..], 0, [7])
    ensures is' == [7, 0]
  {
    assert is'[0..] == is' && is'[0..1] == [7] && is'[1..] == [0];
  }

  lemma DamagedFirst(sum: Bytes -> Digest, fr: FileReader)
    requires NoCollision(sum, [1]) && NoCollision(sum, [2]) && fr.sum == sum && fr.content.ByManifest? && fr.cache == map[]
    requires fr.entries == [Entry(sum([1]), 1, 0), Entry(sum([2]), 1, 0)] && Cumulative(fr.entries, fr.offsets)
    ensures fr.FirstFails(Damaged(sum), 0, 2) && fr.Spilled(Damaged(sum), 0, 2) == [7] && fr.Holding([[1], [2]])
  {
    var st := Damaged(sum);
    assert [7] != [1] && [1] != [2];
    assert st.objects[0][0..0 + 1] == [7];
    assert FirstFrom(fr.entries, fr.offsets, 0, 0) == 0;
    assert st.locators[sum([1])] == Locator(0, 0, 1);
  }

  // --- a manifest with a cut length ----------------------------------------------------------------

  /** A reader opened on the manifest of a file whose first chunk does not fit its length field. */
  ghost predicate Shortened(fr: FileReader, data: Bytes, size: nat) {
    && size > 0 && Min(size, |data|) >= Pow256(4) && fr.content.ByManifest? && fr.size == |data|
    && |Split(data, size)| == |fr.entries| && fr.Holding(Split(data, size))
    && forall i :: 0 <= i < |fr.entries| ==> fr.entries[i].length == |Split(data, size)[i]| % Pow256(4)
  }

  /** Such a reader is what storing and opening such a file gives, if its chunks are few enough to count. */
  method StoreOverlong(repo: Repo, data: Bytes, now: Time, rec: InodeRecord) returns (fr: FileReader)
    requires repo.Valid() && CollisionFree(repo.sum, data, repo.chunkSize)
    requires Min(repo.chunkSize, |data|) >= Pow256(4) > |Split(data, repo.chunkSize)|
    requires !GoesInline(data, repo.chunkSize, repo.singleThreshold)
    modifies repo, repo.packer
    ensures repo.Valid() && fresh(fr) && fr.Valid() && fr.cache == map[] && Shortened(fr, data, repo.chunkSize) && fr.Available(repo.st)
  {
    hide Pow256, Shortened;
    var c := repo.StoreAndFlush(data, now);
    StoredManifest(repo.sum, repo.st, data, repo.chunkSize, c);
    var reader := OpenFile(repo.sum, repo.st, rec.(content := c, size := |data|));
    fr := reader;
    OverlongReader(fr, repo.st, data, repo.chunkSize);
  }

  lemma OverlongReader(fr: FileReader, st: Store, data: Bytes, size: nat)
    requires size > 0 && ValidStore(fr.sum, st) && CollisionFree(fr.sum, data, size) && AllLocated(fr.sum, st, data, size)
    requires Min(size, |data|) >= Pow256(4) > |Split(data, size)| && fr.size == |data|
    requires fr.content.ByManifest? && Cumulative(fr.entries, fr.offsets)
    requires fr.entries == Cropped(ManifestOf(fr.sum, data, size)).entries
    ensures Shortened(fr, data, size) && fr.Available(st)
  {
    hide Pow256, Split;
    CroppedNothing(fr.sum, data, size);
    forall i | 0 <= i < |fr.entries|
      ensures fr.Names(Split(data, size)[i], i) && fr.entries[i].length == |Split(data, size)[i]| % Pow256(4)
      ensures ReadChunk(fr.sum, st, fr.entries[i].chunkID).Some?
    {
      CroppedEntry(fr.sum, data, size, i);
      LocatedReads(fr.sum, st, Split(data, size)[i]);
      ModAtMost(|Split(data, size)[i]|, Pow256(4));
    }
  }

  lemma ModAtMost(a: nat, b: nat)
    requires b > 0
    ensures a % b <= a
  {
  }

  lemma CroppedNothing(sum: Bytes -> Digest, data: Bytes, size: nat)
    requires size > 0 && |Split(data, size)| < Pow256(4)
    ensures |Cropped(ManifestOf(sum, data, size)).entries| == |Split(data, size)|
  {
    hide Pow256, Split;
  }

  lemma FirstPiece(data: Bytes, size: nat)
    requires size > 0 && data != []
    ensures |Split(data, size)| > 0 && Split(data, size)[0] == data[..Min(size, |data|)]
    ensures |data| > size ==> |Split(data, size)| > 1 && Split(data, size)[1] == data[size..size + Min(size, |data| - size)]
  {
    if |data| > size {
      assert Split(data, size)[1..] == Split(data[size..], size);
      assert data[size..][..Min(size, |data| - size)] == data[size..size + Min(size, |data| - size)];
    }
  }

  lemma ShortenedFirst(fr: FileReader, data: Bytes, size: nat)
    requires Shortened(fr, data, size)
    ensures size > 0
    ensures var chunks := Split(data, size);
            && |chunks| == |fr.entries| == |fr.offsets| > 0 && fr.Holding(chunks) && fr.content.ByManifest? && fr.size == |data|
            && fr.offsets[0] == 0 && chunks[0] == data[0..Min(size, |data|)] && fr.entries[0].length <= Min(size, |data|) <= |data|
  {
    FirstPiece(data, size);
    assert fr.Names(Split(data, size)[0], 0);
    assert data[..Min(size, |data|)] == data[0..Min(size, |data|)];
  }

  /** A read that starts before the shortened length and ends within the first chunk gives its bytes. */
  lemma ShortenedText(fr: FileReader, data: Bytes, size: nat, off: nat, want: nat)
    requires Shortened(fr, data, size) && off < fr.entries[0].length && 0 < want && off + want <= Min(size, |data|)
    ensures fr.Text(Split(data, size), off, want) == data[off..off + want]
    ensures FirstFrom(fr.entries, fr.offsets, off, 0) == 0
  {
    hide Pow256, Split, Assembled, FirstFrom, Shortened, fr.Holding;
    ShortenedFirst(fr, data, size);
    var chunks := Split(data, size);
    FirstIs(fr.entries, fr.offsets, off, 0);
    AssembledStep(chunks, fr.entries, fr.offsets, fr.size, off, want, 0);
    AssembledNothing(chunks, fr.entries, fr.offsets, fr.size, off + want, 0);
    SliceOfCut(data, 0, Min(size, |data|), off, want);
  }

  lemma ShortenedReadable(fr: FileReader, st: Store, data: Bytes, size: nat, off: nat, room: nat)
    requires Shortened(fr, data, size) && ReadChunk(fr.sum, st, fr.entries[0].chunkID).Some? && off < fr.entries[0].length
    ensures |fr.entries| == |fr.offsets|
    ensures fr.Readable(st, 0, off, room) <==> !fr.Direct(0, off, room)
    ensures fr.Direct(0, off, room) ==> fr.Spilled(st, off, room) == []
  {
    hide Pow256;
    FirstPiece(data, size);
    assert fr.Names(Split(data, size)[0], 0);
    FirstIs(fr.entries, fr.offsets, off, 0);
  }

  /**
   Reading a part of an overlong first chunk that starts before the shortened length. Through the cache it returns the
   right bytes, even past that length; straight into the buffer it fails, since the chunk is longer than its entry says.
   */
  method ReadShortened(fr: FileReader, st: Store, p: array<Byte>, off: nat, ghost data: Bytes, ghost size: nat) returns (n: nat, err: ReadError)
    requires fr.Valid() && Shortened(fr, data, size) && ReadChunk(fr.sum, st, fr.entries[0].chunkID).Some?
    requires off < fr.entries[0].length && 0 < p.Length && off + p.Length <= Min(size, |data|)
    modifies fr, p
    ensures fr.Valid()
    ensures old(fr.entries[0].chunkID !in fr.cache) && off == 0 && fr.entries[0].length <= p.Length ==>
              err == FetchFailed && n == 0 && p[..] == old(p[..])
    ensures old(fr.entries[0].chunkID in fr.cache) || off > 0 || p.Length < fr.entries[0].length ==>
              err == NoError && n == p.Length && p[..] == data[off..off + p.Length]
  {
    hide Pow256, Split, Shortened, fr.Valid, fr.Holding, fr.Text, fr.Spilled, fr.Outcome, fr.Available, fr.Measured, fr.WithinSize, fr.Fetched, Pasted, FirstFrom;
    ShortenedFirst(fr, data, size);
    ShortenedText(fr, data, size, off, p.Length);
    ShortenedReadable(fr, st, data, size, off, p.Length);
    ghost var was, direct := p[..], fr.Direct(0, off, p.Length);
    assert fr.OnePiece(st, Split(data, size), off, p.Length) <==> !direct;
    n, err := fr.ReadAt(st, p, off, Split(data, size));
    if direct {
      ShortenedReadable(fr, st, data, size, off, p.Length);
      assert p[0..] == p[..] && was[0..] == was;
      PastedIsSame(was, p[..]);
    } else {
      assert p[..] == p[..n];
    }
  }

  /** A read of the whole first entry and any more, straight into the buffer, fails whatever comes after it. */
  lemma ShortenedDirect(fr: FileReader, st: Store, data: Bytes, size: nat, room: nat)
    requires Shortened(fr, data, size) && 0 < fr.entries[0].length <= room && fr.entries[0].chunkID !in fr.cache
    ensures fr.FirstFails(st, 0, room)
    ensures ReadChunk(fr.sum, st, fr.entries[0].chunkID).Some? ==> fr.Spilled(st, 0, room) == []
  {
    hide Pow256;
    FirstPiece(data, size);
    FirstIs(fr.entries, fr.offsets, 0, 0);
    assert fr.Names(Split(data, size)[0], 0);
  }

  /** A read past the shortened length gives bytes of the second chunk. */
  lemma ShiftedText(fr: FileReader, data: Bytes, size: nat, off: nat, want: nat)
    requires Shortened(fr, data, size) && |data| > size && |fr.entries| > 1 && want > 0
    requires fr.entries[0].length <= off < fr.entries[0].length + fr.entries[1].length
    requires off - fr.entries[0].length + want <= Min(size, |data| - size)
    ensures var at := size + (off - fr.entries[0].length); at + want <= |data| && fr.Text(Split(data, size), off, want) == data[at..at + want]
    ensures |fr.offsets| == |fr.entries| && fr.offsets[1] == fr.entries[0].length && FirstFrom(fr.entries, fr.offsets, off, 0) == 1
    ensures |Split(data, size)| == |fr.entries| && Split(data, size)[1] == data[size..size + Min(size, |data| - size)]
    ensures off < fr.size
  {
    hide Pow256, Split, Assembled;
    FirstPiece(data, size);
    var chunks := Split(data, size);
    assert fr.offsets[0 + 1] == fr.offsets[0] + fr.entries[0].length;
    FirstIs(fr.entries, fr.offsets, off, 1);
    assert fr.Names(chunks[0], 0) && fr.Names(chunks[1], 1);
    AssembledStep(chunks, fr.entries, fr.offsets, fr.size, off, want, 1);
    AssembledNothing(chunks, fr.entries, fr.offsets, fr.size, off + want, 0);
    SliceOfCut(data, size, size + Min(size, |data| - size), size + (off - fr.entries[0].length), want);
  }

  /**
   Reading past the shortened length of an overlong first chunk: the bytes returned are those of the second chunk, so many
   places further on in the file as the length lost.
   */
  method ReadShifted(fr: FileReader, st: Store, p: array<Byte>, off: nat, ghost data: Bytes, ghost size: nat) returns (n: nat, err: ReadError)
    requires fr.Valid() && Shortened(fr, data, size) && |data| > size && |fr.entries| > 1 && 0 < p.Length
    requires fr.entries[0].length <= off < fr.entries[0].length + fr.entries[1].length
    requires off - fr.entries[0].length + p.Length <= Min(size, |data| - size)
    requires |fr.offsets| == |fr.entries| && fr.Readable(st, 1, off, p.Length)
    modifies fr, p
    ensures fr.Valid() && err == NoError && n == p.Length
    ensures var at := size + (off - fr.entries[0].length); at + n <= |data| && p[..] == data[at..at + n]
  {
    hide Pow256, Split, Shortened, fr.Valid, fr.Holding, fr.Text, fr.Spilled, fr.Outcome, fr.Available, fr.Measured, fr.WithinSize, fr.Fetched, Pasted, FirstFrom, fr.Readable;
    ShortenedFirst(fr, data, size);
    ShiftedText(fr, data, size, off, p.Length);
    assert fr.OnePiece(st, Split(data, size), off, p.Length);
    n, err := fr.ReadAt(st, p, off, Split(data, size));
    assert p[..] == p[..n];
  }
}
