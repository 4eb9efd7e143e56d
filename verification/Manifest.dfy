/** The manifest codec of pkg/manifest: fixed-width big-endian fields, then the chunk list. */
module Manifest {
  import opened Base

  const FORMAT_VERSION := 1
  const ENTRY_WIDTH := 40
  const HEADER_WIDTH := 18

  datatype Entry = Entry(chunkID: ChunkID, length: nat, flags: nat)

  datatype Manifest = Manifest(version: nat, contentSize: nat, chunkSizeHint: nat, entries: seq<Entry>)

  datatype DecodeError = Truncated | UnsupportedVersion(version: nat)

  // --- big-endian integers ---------------------------------------------------

  function Pow256(width: nat): (p: nat)
    ensures p > 0
  {
    if width == 0 then 1 else 256 * Pow256(width - 1)
  }

  /** The low `width` bytes of v, most significant first: Go's PutUint truncates the same way. */
  function BigEndian(v: nat, width: nat): (s: Bytes)
    ensures |s| == width
  {
    if width == 0 then [] else BigEndian(v / 256, width - 1) + [v % 256]
  }

  function FromBigEndian(s: Bytes): (v: nat)
    ensures v < Pow256(|s|)
  {
    if s == [] then 0 else
      var hi := FromBigEndian(s[..|s| - 1]);
      256 * hi + s[|s| - 1]
  }

  lemma {:induction false} FromBigEndianInverse(v: nat, width: nat)
    requires v < Pow256(width)
    ensures FromBigEndian(BigEndian(v, width)) == v
  {
    if width > 0 {
      var s := BigEndian(v, width);
      assert s[..|s| - 1] == BigEndian(v / 256, width - 1);
      FromBigEndianInverse(v / 256, width - 1);
    }
  }

  lemma {:induction false} BigEndianInverse(s: Bytes)
    ensures BigEndian(FromBigEndian(s), |s|) == s
  {
    if s != [] {
      BigEndianInverse(s[..|s| - 1]);
      assert s == s[..|s| - 1] + [s[|s| - 1]];
    }
  }

  // --- encoding --------------------------------------------------------------

  /** Every field fits the width it is written with, and the version is the supported one. */
  predicate Fits(m: Manifest) {
    && m.version == FORMAT_VERSION
    && m.contentSize < Pow256(8)
    && m.chunkSizeHint < Pow256(4)
    && |m.entries| < Pow256(4)
    && forall i :: 0 <= i < |m.entries| ==> m.entries[i].length < Pow256(4) && m.entries[i].flags < Pow256(4)
  }

  function EncodeEntry(e: Entry): (s: Bytes)
    ensures |s| == ENTRY_WIDTH
  {
    e.chunkID + BigEndian(e.length, 4) + BigEndian(e.flags, 4)
  }

  function EncodeEntries(es: seq<Entry>): (s: Bytes)
    ensures |s| == ENTRY_WIDTH * |es|
  {
    if es == [] then [] else EncodeEntry(es[0]) + EncodeEntries(es[1..])
  }

  function EncodeHeader(m: Manifest): (s: Bytes)
    ensures |s| == HEADER_WIDTH
  {
    BigEndian(m.version, 2) + BigEndian(m.contentSize, 8) + BigEndian(m.chunkSizeHint, 4) + BigEndian(|m.entries|, 4)
  }

  function Encode(m: Manifest): Bytes {
    EncodeHeader(m) + EncodeEntries(m.entries)
  }

  // --- decoding --------------------------------------------------------------

  function DecodeEntry(s: Bytes): Entry
    requires |s| == ENTRY_WIDTH
  {
    Entry(s[..32], FromBigEndian(s[32..36]), FromBigEndian(s[36..40]))
  }

  function DecodeEntries(s: Bytes, n: nat): (r: Option<seq<Entry>>) {
    if n == 0 then Some([])
    else if |s| < ENTRY_WIDTH then None
    else match DecodeEntries(s[ENTRY_WIDTH..], n - 1)
      case None => None
      case Some(es) => Some([DecodeEntry(s[..ENTRY_WIDTH])] + es)
  }

  /** What Decode returns for each input, trailing bytes ignored. */
  function DecodeBytes(s: Bytes): Result<Manifest, DecodeError> {
    if |s| < 2 then Err(Truncated)
    else
      var version := FromBigEndian(s[..2]);
      if version != FORMAT_VERSION then Err(UnsupportedVersion(version))
      else if |s| < HEADER_WIDTH then Err(Truncated)
      else match DecodeEntries(s[HEADER_WIDTH..], FromBigEndian(s[14..18]))
        case None => Err(Truncated)
        case Some(es) => Ok(Manifest(version, FromBigEndian(s[2..10]), FromBigEndian(s[10..14]), es))
  }

  // --- the codec's laws ------------------------------------------------------

  lemma EntryRoundTrip(e: Entry)
    requires e.length < Pow256(4) && e.flags < Pow256(4)
    ensures DecodeEntry(EncodeEntry(e)) == e
  {
    var s := EncodeEntry(e);
    assert s[..32] == e.chunkID && s[32..36] == BigEndian(e.length, 4) && s[36..40] == BigEndian(e.flags, 4);
    FromBigEndianInverse(e.length, 4);
    FromBigEndianInverse(e.flags, 4);
  }

  lemma {:induction false} EntriesRoundTrip(es: seq<Entry>, rest: Bytes)
    requires forall i :: 0 <= i < |es| ==> es[i].length < Pow256(4) && es[i].flags < Pow256(4)
    ensures DecodeEntries(EncodeEntries(es) + rest, |es|) == Some(es)
  {
    if es != [] {
      var s := EncodeEntries(es) + rest;
      assert s[..ENTRY_WIDTH] == EncodeEntry(es[0]);
      assert s[ENTRY_WIDTH..] == EncodeEntries(es[1..]) + rest;
      EntryRoundTrip(es[0]);
      EntriesRoundTrip(es[1..], rest);
      assert es == [es[0]] + es[1..];
    }
  }

  lemma EntryRoundTripBack(s: Bytes)
    requires |s| == ENTRY_WIDTH
    ensures EncodeEntry(DecodeEntry(s)) == s
  {
    BigEndianInverse(s[32..36]);
    BigEndianInverse(s[36..40]);
  }

  lemma {:induction false} EntriesRoundTripBack(s: Bytes, n: nat)
    requires DecodeEntries(s, n).Some?
    ensures var es := DecodeEntries(s, n).value;
            && |es| == n && ENTRY_WIDTH * n <= |s| && EncodeEntries(es) == s[..ENTRY_WIDTH * n]
            && forall i :: 0 <= i < n ==> es[i].length < Pow256(4) && es[i].flags < Pow256(4)
  {
    if n > 0 {
      var tail := s[ENTRY_WIDTH..];
      EntriesRoundTripBack(tail, n - 1);
      EntryRoundTripBack(s[..ENTRY_WIDTH]);
      assert DecodeEntries(s, n).value[1..] == DecodeEntries(tail, n - 1).value;
      assert s[..ENTRY_WIDTH * n] == s[..ENTRY_WIDTH] + tail[..ENTRY_WIDTH * (n - 1)];
    }
  }

  /** Decode undoes Encode, whatever follows the encoding in the stream. */
  lemma DecodeUndoesEncode(m: Manifest, rest: Bytes)
    requires Fits(m)
    ensures DecodeBytes(Encode(m) + rest) == Ok(m)
  {
    var s := Encode(m) + rest;
    assert s[..2] == BigEndian(m.version, 2) && s[2..10] == BigEndian(m.contentSize, 8);
    assert s[10..14] == BigEndian(m.chunkSizeHint, 4) && s[14..18] == BigEndian(|m.entries|, 4);
    assert s[HEADER_WIDTH..] == EncodeEntries(m.entries) + rest;
    FromBigEndianInverse(m.version, 2);
    FromBigEndianInverse(m.contentSize, 8);
    FromBigEndianInverse(m.chunkSizeHint, 4);
    FromBigEndianInverse(|m.entries|, 4);
    EntriesRoundTrip(m.entries, rest);
  }

  lemma HeaderReencodes(s: Bytes, m: Manifest)
    requires |s| >= HEADER_WIDTH && m.version == FromBigEndian(s[..2]) && m.contentSize == FromBigEndian(s[2..10])
    requires m.chunkSizeHint == FromBigEndian(s[10..14]) && |m.entries| == FromBigEndian(s[14..18])
    ensures EncodeHeader(m) == s[..HEADER_WIDTH]
    ensures m.version < Pow256(2) && m.contentSize < Pow256(8) && m.chunkSizeHint < Pow256(4) && |m.entries| < Pow256(4)
  {
    hide BigEndian, FromBigEndian, Pow256;
    BigEndianInverse(s[..2]);
    BigEndianInverse(s[2..10]);
    BigEndianInverse(s[10..14]);
    BigEndianInverse(s[14..18]);
  }

  /** What Decode accepted is the encoding of what it returned, then the rest of the stream. */
  lemma DecodedReencodes(s: Bytes, m: Manifest)
    requires DecodeBytes(s) == Ok(m)
    ensures Fits(m) && Encode(m) <= s
  {
    hide BigEndian, FromBigEndian, Pow256, EncodeHeader, EncodeEntries;
    EntriesRoundTripBack(s[HEADER_WIDTH..], FromBigEndian(s[14..18]));
    HeaderReencodes(s, m);
    var width := ENTRY_WIDTH * |m.entries|;
    assert EncodeHeader(m) + EncodeEntries(m.entries) == s[..HEADER_WIDTH] + s[HEADER_WIDTH..][..width];
    assert s[..HEADER_WIDTH] + s[HEADER_WIDTH..][..width] == s[..HEADER_WIDTH + width];
  }

  /** Decode accepts exactly the streams that start with the encoding of a fitting manifest. */
  lemma DecodeAcceptsExactly(s: Bytes, m: Manifest)
    ensures DecodeBytes(s) == Ok(m) <==> Fits(m) && Encode(m) <= s
  {
    hide DecodeBytes, Encode, Fits;
    if DecodeBytes(s) == Ok(m) {
      DecodedReencodes(s, m);
    }
    if Fits(m) && Encode(m) <= s {
      assert s == Encode(m) + s[|Encode(m)|..];
      DecodeUndoesEncode(m, s[|Encode(m)|..]);
    }
  }

  /** Distinct manifests have distinct encodings, so the ID distinguishes them up to hash collision. */
  lemma EncodeInjective(m: Manifest, m': Manifest)
    requires Fits(m) && Fits(m') && Encode(m) == Encode(m')
    ensures m == m'
  {
    DecodeUndoesEncode(m, []);
    DecodeUndoesEncode(m', []);
    assert Encode(m) + [] == Encode(m') + [];
  }

  lemma {:induction false} EncodeEntriesNext(es: seq<Entry>, i: nat)
    requires i < |es|
    ensures EncodeEntries(es[..i + 1]) == EncodeEntries(es[..i]) + EncodeEntry(es[i])
  {
    if i == 0 {
      assert es[..1] == [es[0]] && es[..0] == [];
    } else {
      EncodeEntriesNext(es[1..], i - 1);
      assert es[1..][..i] == es[..i + 1][1..] && es[1..][..i - 1] == es[..i][1..];
    }
  }

  lemma ModSteps(v: nat, p: nat)
    requires p > 0
    ensures v % (256 * p) / 256 == v / 256 % p && v % (256 * p) % 256 == v % 256
  {
    var q, r := v / 256 / p, v / 256 % p;
    var low := v % 256;
    assert v == 256 * (q * p + r) + low;
    assert 256 * (q * p) == (256 * p) * q;
    assert v == (256 * p) * q + (256 * r + low);
    DivModUnique(v, 256 * p, q, 256 * r + low);
  }

  lemma MulGap(d: int, a: int, b: int)
    requires d >= 0 && a < b
    ensures d * a + d <= d * b
  {
    assert d * (b - a - 1) >= 0;
    assert d * (b - a - 1) == d * b - d * a - d;
  }

  lemma DivModUnique(v: int, d: int, q: int, r: int)
    requires d > 0 && v == d * q + r && 0 <= r < d
    ensures v % d == r
  {
    var q' := v / d;
    if q < q' {
      MulGap(d, q, q');
    } else if q' < q {
      MulGap(d, q', q);
    }
  }

  /** A fixed-width field keeps a number modulo its width. */
  lemma {:induction false} BigEndianMod(v: nat, width: nat)
    ensures BigEndian(v % Pow256(width), width) == BigEndian(v, width)
  {
    if width > 0 {
      ModSteps(v, Pow256(width - 1));
      BigEndianMod(v / 256, width - 1);
    }
  }

  lemma {:induction false} EncodeEntriesSplit(es: seq<Entry>, n: nat)
    requires n <= |es|
    ensures EncodeEntries(es) == EncodeEntries(es[..n]) + EncodeEntries(es[n..])
  {
    if n == 0 {
      assert es[..0] == [] && es[0..] == es;
    } else {
      EncodeEntriesSplit(es[1..], n - 1);
      assert es[..n][1..] == es[1..][..n - 1] && es[1..][n - 1..] == es[n..];
    }
  }

  /** The manifest a decoder gets from an encoding whose entry count does not fit its field. */
  function Cropped(m: Manifest): Manifest {
    m.(entries := m.entries[..|m.entries| % Pow256(4)])
  }

  /** Encoding a manifest with too many entries: what is read back is the first of them, the rest is taken for trailing bytes. */
  lemma DecodeCrops(m: Manifest)
    requires Fits(Cropped(m))
    ensures DecodeBytes(Encode(m)) == Ok(Cropped(m))
  {
    hide BigEndian, Pow256, DecodeBytes, EncodeEntries, Fits;
    var n := |m.entries| % Pow256(4);
    BigEndianMod(|m.entries|, 4);
    EncodeEntriesSplit(m.entries, n);
    assert EncodeHeader(Cropped(m)) == EncodeHeader(m);
    assert Encode(m) == Encode(Cropped(m)) + EncodeEntries(m.entries[n..]);
    DecodeUndoesEncode(Cropped(m), EncodeEntries(m.entries[n..]));
  }

  /** The writer: the header, then one entry after the other. */
  method EncodeBytes(m: Manifest) returns (s: Bytes)
    ensures s == Encode(m)
    ensures Fits(m) ==> DecodeBytes(s) == Ok(m)
  {
    hide EncodeHeader, EncodeEntry, DecodeBytes, Fits;
    s := EncodeHeader(m);
    for i := 0 to |m.entries|
      invariant s == EncodeHeader(m) + EncodeEntries(m.entries[..i])
    {
      EncodeEntriesNext(m.entries, i);
      s := s + EncodeEntry(m.entries[i]);
    }
    assert m.entries[..|m.entries|] == m.entries;
    if Fits(m) {
      DecodeUndoesEncode(m, []);
      assert Encode(m) + [] == Encode(m);
    }
  }

  // --- the reader that Decode runs on ---------------------------------------

  /** bufErrReader: consumes a stream and remembers the first failure. */
  class Reader {
    var rest: Bytes
    var failed: bool

    constructor (s: Bytes)
      ensures rest == s && !failed
    {
      rest, failed := s, false;
    }

    /** io.ReadFull into a buffer of n bytes; a short stream sets the sticky error. */
    method ReadBytes(n: nat) returns (b: Bytes)
      modifies this
      ensures |b| == n
      ensures failed == (old(failed) || |old(rest)| < n)
      ensures !failed ==> old(rest) == b + rest
    {
      b := seq(n, i => 0);
      if failed { return; }
      if |rest| < n {
        failed, rest := true, [];
        return;
      }
      b, rest := rest[..n], rest[n..];
    }

    method ReadUint(width: nat) returns (v: nat)
      modifies this
      ensures failed == (old(failed) || |old(rest)| < width)
      ensures !failed ==> width <= |old(rest)| && v == FromBigEndian(old(rest)[..width]) && rest == old(rest)[width..]
    {
      var b := ReadBytes(width);
      v := FromBigEndian(b);
      if !failed {
        assert old(rest)[..width] == b && old(rest)[width..] == rest;
      }
    }

    method ReadEntry() returns (e: Entry)
      modifies this
      ensures failed == (old(failed) || |old(rest)| < ENTRY_WIDTH)
      ensures !failed ==> e == DecodeEntry(old(rest)[..ENTRY_WIDTH]) && rest == old(rest)[ENTRY_WIDTH..]
    {
      hide FromBigEndian;
      ghost var before := rest;
      var id := ReadBytes(32);
      var length := ReadUint(4);
      var flags := ReadUint(4);
      e := Entry(id, length, flags);
      if !failed {
        assert before[..ENTRY_WIDTH][..32] == id;
        assert before[..ENTRY_WIDTH][32..36] == before[32..][..4] && before[..ENTRY_WIDTH][36..40] == before[32..][4..][..4];
        assert before[32..][4..][4..] == before[ENTRY_WIDTH..];
      }
    }

    /** The loop over the declared number of entries, stopping at the first short read. */
    method ReadEntries(n: nat) returns (entries: seq<Entry>)
      requires !failed
      modifies this
      ensures DecodeEntries(old(rest), n) == if failed then None else Some(entries)
    {
      hide DecodeEntry, FromBigEndian;
      entries := [];
      assert forall es: seq<Entry> :: entries + es == es;
      for i := 0 to n
        invariant |entries| == i && !failed
        invariant match DecodeEntries(rest, n - i)
                  case None => DecodeEntries(old(rest), n) == None
                  case Some(es) => DecodeEntries(old(rest), n) == Some(entries + es)
      {
        var e := ReadEntry();
        if failed { return; }
        entries := entries + [e];
        assert forall es: seq<Entry> :: entries + es == entries[..i] + ([e] + es);
      }
      assert entries + [] == entries;
    }
  }

  method Decode(s: Bytes) returns (r: Result<Manifest, DecodeError>)
    ensures r == DecodeBytes(s)
    ensures forall m :: r == Ok(m) <==> Fits(m) && Encode(m) <= s
  {
    hide FromBigEndian, DecodeEntries, Fits, Encode;
    forall m ensures DecodeBytes(s) == Ok(m) <==> Fits(m) && Encode(m) <= s {
      DecodeAcceptsExactly(s, m);
    }
    var br := new Reader(s);
    var version := br.ReadUint(2);
    if !br.failed && version != FORMAT_VERSION {
      return Err(UnsupportedVersion(version));
    }
    var contentSize := br.ReadUint(8);
    var hint := br.ReadUint(4);
    var n := br.ReadUint(4);
    if br.failed {
      return Err(Truncated);
    }
    assert s[2..][..8] == s[2..10] && s[2..][8..][..4] == s[10..14] && s[2..][8..][4..][..4] == s[14..18];
    assert br.rest == s[HEADER_WIDTH..];
    var entries := br.ReadEntries(n);
    if br.failed {
      return Err(Truncated);
    }
    return Ok(Manifest(version, contentSize, hint, entries));
  }

  // --- the format -------------------------------------------------------------------------------

  /** Most significant byte first. */
  lemma {:induction false} BigEndianDigits(v: nat, width: nat, i: nat)
    requires i < width
    ensures BigEndian(v, width)[i] == v / Pow256(width - 1 - i) % 256
  {
    if i < width - 1 {
      BigEndianDigits(v / 256, width - 1, i);
      DivDiv(v, Pow256(width - 2 - i));
      assert BigEndian(v, width)[i] == BigEndian(v / 256, width - 1)[i];
    }
  }

  lemma DivDiv(v: nat, p: nat)
    requires p > 0
    ensures v / 256 / p == v / (256 * p)
  {
    var q, r := v / (256 * p), v % (256 * p);
    assert v == 256 * p * q + r;
    assert v / 256 == p * q + r / 256 by {
      assert v == 256 * (p * q) + r;
    }
    assert r / 256 < p;
    DivModUnique(v / 256, p, q, r / 256);
  }

  /** Where entry `i` begins. */
  function EntryAt(i: nat): nat {
    18 + 40 * i
  }

  lemma {:induction false} EntriesLayout(es: seq<Entry>, i: nat)
    requires i < |es|
    ensures |EncodeEntries(es)| == 40 * |es| && EncodeEntries(es)[40 * i..40 * i + 40] == EncodeEntry(es[i])
  {
    if i > 0 {
      EntriesLayout(es[1..], i - 1);
      assert EncodeEntries(es)[40 * i..40 * i + 40] == EncodeEntries(es[1..])[40 * (i - 1)..40 * (i - 1) + 40];
    }
  }

  /**
   The wire format: two bytes of version, eight of content size, four of chunk size, four of entry count, all big-endian;
   then forty bytes an entry, the chunk's hash, its length and its flags.
   */
  lemma EncodeLayout(m: Manifest)
    ensures var s := Encode(m);
            && |s| == 18 + 40 * |m.entries|
            && s[0..2] == BigEndian(m.version, 2) && s[2..10] == BigEndian(m.contentSize, 8)
            && s[10..14] == BigEndian(m.chunkSizeHint, 4) && s[14..18] == BigEndian(|m.entries|, 4)
            && forall i :: 0 <= i < |m.entries| ==>
                 && EntryAt(i) + 40 <= |s| && s[EntryAt(i)..EntryAt(i) + 32] == m.entries[i].chunkID
                 && s[EntryAt(i) + 32..EntryAt(i) + 36] == BigEndian(m.entries[i].length, 4)
                 && s[EntryAt(i) + 36..EntryAt(i) + 40] == BigEndian(m.entries[i].flags, 4)
  {
    hide BigEndian;
    var s := Encode(m);
    HeaderLayout(m);
    forall i | 0 <= i < |m.entries|
      ensures EntryAt(i) + 40 <= |s| && s[EntryAt(i)..EntryAt(i) + 32] == m.entries[i].chunkID
      ensures s[EntryAt(i) + 32..EntryAt(i) + 36] == BigEndian(m.entries[i].length, 4)
      ensures s[EntryAt(i) + 36..EntryAt(i) + 40] == BigEndian(m.entries[i].flags, 4)
    {
      EntriesLayout(m.entries, i);
      EntryLayout(s, EntryAt(i), m.entries[i]);
    }
  }

  lemma HeaderLayout(m: Manifest)
    ensures var s := Encode(m);
            && s[0..2] == BigEndian(m.version, 2) && s[2..10] == BigEndian(m.contentSize, 8)
            && s[10..14] == BigEndian(m.chunkSizeHint, 4) && s[14..18] == BigEndian(|m.entries|, 4)
  {
    hide BigEndian, EncodeEntries;
  }

  lemma EntryLayout(s: Bytes, at: nat, e: Entry)
    requires at + 40 <= |s| && s[at..at + 40] == EncodeEntry(e)
    ensures s[at..at + 32] == e.chunkID && s[at + 32..at + 36] == BigEndian(e.length, 4) && s[at + 36..at + 40] == BigEndian(e.flags, 4)
  {
    hide BigEndian;
    SubRange(s, at, 40, 0, 32);
    SubRange(s, at, 40, 32, 36);
    SubRange(s, at, 40, 36, 40);
  }

  lemma SubRange(s: Bytes, at: nat, n: nat, a: nat, b: nat)
    requires at + n <= |s| && a <= b <= n
    ensures s[at..at + n][a..b] == s[at + a..at + b]
  {
    var t, u := s[at..at + n][a..b], s[at + a..at + b];
    assert |t| == |u|;
    forall i | 0 <= i < |t| ensures t[i] == u[i] {
      assert t[i] == s[at..at + n][a + i] && u[i] == s[at + a + i];
    }
  }

  lemma {:induction false} EntriesDecodeIff(s: Bytes, n: nat)
    ensures DecodeEntries(s, n).Some? <==> 40 * n <= |s|
  {
    if n > 0 && |s| >= 40 {
      EntriesDecodeIff(s[40..], n - 1);
    }
  }

  /** Which inputs are refused, and how: another version, or fewer bytes than the header or the declared entries take. */
  lemma DecodeRefusesIff(s: Bytes)
    ensures var r := DecodeBytes(s);
            && (r.Ok? <==> |s| >= 18 && FromBigEndian(s[..2]) == 1 && |s| >= 18 + 40 * FromBigEndian(s[14..18]))
            && (r.Err? && r.error.UnsupportedVersion? <==> |s| >= 2 && FromBigEndian(s[..2]) != 1)
            && (|s| >= 2 && FromBigEndian(s[..2]) != 1 ==> r == Err(UnsupportedVersion(FromBigEndian(s[..2]))))
  {
    if |s| >= 18 {
      EntriesDecodeIff(s[18..], FromBigEndian(s[14..18]));
    }
  }
}
