/** Fixed-size chunking (pkg/chunk) and container packing (pkg/pack). */
module Chunking {
  import opened Base
  import opened Storage

  const DEFAULT_SIZE := 4 * 1024 * 1024
  const DEFAULT_SEAL_SIZE := 128 * 1024 * 1024

  datatype Chunk = Chunk(id: ChunkID, data: Bytes)

  function EffectiveSize(size: int): (n: nat)
    ensures n > 0
  {
    if size <= 0 then DEFAULT_SIZE else size
  }

  function Split(b: Bytes, size: nat): seq<Bytes>
    requires size > 0
    decreases |b|
  {
    if b == [] then [] else [b[..Min(size, |b|)]] + Split(b[Min(size, |b|)..], size)
  }

  function Concat(pieces: seq<Bytes>): Bytes {
    if pieces == [] then [] else pieces[0] + Concat(pieces[1..])
  }

  function Chunks(sum: Bytes -> Digest, pieces: seq<Bytes>): (cs: seq<Chunk>)
    ensures |cs| == |pieces|
  {
    seq(|pieces|, i requires 0 <= i < |pieces| => Chunk(sum(pieces[i]), pieces[i]))
  }

  /** Splitting loses nothing, and every piece but the last is of full size. */
  lemma {:induction false} SplitLaws(b: Bytes, size: nat)
    requires size > 0
    ensures Concat(Split(b, size)) == b
    ensures forall i :: 0 <= i < |Split(b, size)| ==> 0 < |Split(b, size)[i]| <= size
    ensures forall i :: 0 <= i < |Split(b, size)| - 1 ==> |Split(b, size)[i]| == size
    ensures Split(b, size) == [] <==> b == []
    decreases |b|
  {
    if b != [] {
      var n := Min(size, |b|);
      SplitLaws(b[n..], size);
      assert b == b[..n] + b[n..];
      assert Split(b, size)[1..] == Split(b[n..], size);
    }
  }

  /** The chunker of DESIGN section 15: one buffer's worth of the stream at a time. */
  class Chunker {
    const sum: Bytes -> Digest
    const size: nat
    var rest: Bytes
    var eof: bool

    constructor (sum: Bytes -> Digest, rest: Bytes, size: int)
      ensures this.sum == sum && this.size == EffectiveSize(size) && this.rest == rest && !eof
      ensures this.size == if size > 0 then size else 4194304
    {
      this.sum, this.size, this.rest, this.eof := sum, EffectiveSize(size), rest, false;
    }

    method Next() returns (c: Option<Chunk>)
      requires size > 0
      modifies this
      ensures c.None? <==> old(eof) || old(rest) == []
      ensures eof == c.None? && (old(eof) ==> rest == old(rest))
      ensures c.Some? ==> Split(old(rest), size) == [c.value.data] + Split(rest, size) && c.value.id == sum(c.value.data)
      ensures |rest| <= |old(rest)| && (c.Some? ==> |rest| < |old(rest)|)
    {
      if eof { return None; }
      var n := Min(size, |rest|);
      if n == 0 {
        eof := true;
        return None;
      }
      var data := rest[..n];
      rest := rest[n..];
      return Some(Chunk(sum(data), data));
    }
  }

  method SplitAll(sum: Bytes -> Digest, data: Bytes, size: int) returns (out: seq<Chunk>)
    ensures out == Chunks(sum, Split(data, EffectiveSize(size)))
  {
    var ck := new Chunker(sum, data, size);
    ghost var done: seq<Bytes> := [];
    out := [];
    while true
      invariant ck.sum == sum && ck.size == EffectiveSize(size) && !ck.eof
      invariant done + Split(ck.rest, ck.size) == Split(data, ck.size) && out == Chunks(sum, done)
      decreases |ck.rest|
    {
      ghost var before := ck.rest;
      var c := ck.Next();
      if c.None? {
        assert done + [] == done;
        return;
      }
      done := done + [c.value.data];
      out := out + [c.value];
      assert done + Split(ck.rest, ck.size) == done[..|done| - 1] + Split(before, ck.size);
    }
  }

  // --- packing ---------------------------------------------------------------------

  datatype Pending = Pending(id: ChunkID, offset: nat, length: nat)

  /** The buffered bytes a pending entry stands for hash to its ID. */
  ghost predicate Holds(sum: Bytes -> Digest, buf: Bytes, e: Pending) {
    e.length > 0 && e.offset + e.length <= |buf| && sum(buf[e.offset..e.offset + e.length]) == e.id
  }

  ghost predicate AllHeld(sum: Bytes -> Digest, buf: Bytes, pending: seq<Pending>) {
    forall i :: 0 <= i < |pending| ==> Holds(sum, buf, pending[i])
  }

  /** The chunks buffered but not yet sealed. */
  function PendingIDs(pending: seq<Pending>): set<ChunkID> {
    set e | e in pending :: e.id
  }

  /** No later entry has this one's chunk. */
  ghost predicate LastOf(pending: seq<Pending>, i: nat)
    requires i < |pending|
  {
    forall j :: i < j < |pending| ==> pending[j].id != pending[i].id
  }

  /** A locator for every chunk added, the last one where a chunk was added twice. */
  function LocatorsOf(pending: seq<Pending>, key: Key): map<ChunkID, Locator> {
    if pending == [] then map[]
    else
      var e := pending[|pending| - 1];
      LocatorsOf(pending[..|pending| - 1], key)[e.id := Locator(key, e.offset, e.length)]
  }

  lemma {:induction false} LocatorsAre(pending: seq<Pending>, key: Key)
    ensures forall i :: 0 <= i < |pending| ==> pending[i].id in LocatorsOf(pending, key)
    ensures forall id :: id in LocatorsOf(pending, key) ==>
              var l := LocatorsOf(pending, key)[id]; l.container == key && Pending(id, l.offset, l.length) in pending
    ensures forall i :: 0 <= i < |pending| && LastOf(pending, i) ==>
              LocatorsOf(pending, key)[pending[i].id] == Locator(key, pending[i].offset, pending[i].length)
    decreases |pending|
  {
    if pending != [] {
      var rest, e := pending[..|pending| - 1], pending[|pending| - 1];
      LocatorsAre(rest, key);
      assert pending == rest + [e] && e == Pending(e.id, e.offset, e.length);
      forall i | 0 <= i < |rest| && LastOf(pending, i) ensures LastOf(rest, i) && rest[i].id != e.id {
        LastBefore(rest, e, i);
      }
    }
  }

  lemma SealedHeld(sum: Bytes -> Digest, buf: Bytes, pending: seq<Pending>, key: Key)
    requires AllHeld(sum, buf, pending)
    ensures buf == [] ==> pending == []
    ensures var locs := LocatorsOf(pending, key);
            && locs.Keys == PendingIDs(pending)
            && (forall id :: id in locs ==> locs[id].container == key && Pending(id, locs[id].offset, locs[id].length) in pending)
            && forall id :: id in locs ==> Holds(sum, buf, Pending(id, locs[id].offset, locs[id].length))
  {
    LocatorsAre(pending, key);
    assert |pending| > 0 ==> Holds(sum, buf, pending[0]);
  }

  lemma LastBefore(pending: seq<Pending>, e: Pending, i: nat)
    requires i < |pending| && LastOf(pending + [e], i)
    ensures LastOf(pending, i) && pending[i].id != e.id
  {
    assert (pending + [e])[|pending|] == e;
    forall j | i < j < |pending| ensures pending[j].id != pending[i].id {
      assert (pending + [e])[j] == pending[j];
    }
  }

  lemma HoldsExtended(sum: Bytes -> Digest, buf: Bytes, more: Bytes, e: Pending)
    requires Holds(sum, buf, e)
    ensures Holds(sum, buf + more, e)
  {
    assert (buf + more)[e.offset..e.offset + e.length] == buf[e.offset..e.offset + e.length];
  }

  class Packer {
    const sealSize: nat
    var align: nat
    var buf: Bytes
    var pending: seq<Pending>

    constructor (sealSize: int)
      ensures buf == [] && pending == [] && align == 0
      ensures this.sealSize == if sealSize <= 0 then 134217728 else sealSize
    {
      this.sealSize := if sealSize <= 0 then DEFAULT_SEAL_SIZE else sealSize;
      align, buf, pending := 0, [], [];
    }

    method SetAlignment(n: int)
      modifies this`align
      ensures align == if n < 0 then 0 else n
    {
      align := if n < 0 then 0 else n;
    }

    predicate Full()
      reads this
    {
      |buf| >= sealSize
    }

    /** The chunk lands on the next boundary; nothing added earlier moves. */
    method Add(sum: Bytes -> Digest, c: Chunk)
      requires AllHeld(sum, buf, pending) && c.data != [] && c.id == sum(c.data)
      modifies this`buf, this`pending
      ensures AllHeld(sum, buf, pending)
      ensures exists off: nat ::
                            && pending == old(pending) + [Pending(c.id, off, |c.data|)]
                            && (align > 1 ==> Aligned(off, align) && off - |old(buf)| < align)
                            && (align <= 1 ==> off == |old(buf)|) && |old(buf)| <= off
                            && |buf| == off + |c.data| && old(buf) <= buf && buf[off..] == c.data
                            && forall i :: |old(buf)| <= i < off ==> buf[i] == 0
    {
      ghost var before := buf;
      if align > 1 {
        var rem := |buf| % align;
        if rem != 0 {
          buf := buf + seq(align - rem, i => 0);
        }
        PaddedIsAligned(|before|, align);
      }
      var off := |buf|;
      ghost var padded := buf;
      buf := buf + c.data;
      assert buf[off..off + |c.data|] == c.data;
      forall i | 0 <= i < |pending| ensures Holds(sum, buf, pending[i]) {
        if padded != before {
          HoldsExtended(sum, before, padded[|before|..], pending[i]);
        }
        HoldsExtended(sum, padded, c.data, pending[i]);
      }
      pending := pending + [Pending(c.id, off, |c.data|)];
    }

    /** The buffer as one container under `key`, with a locator for every chunk in it; an empty buffer is a no-op. */
    method Seal(sum: Bytes -> Digest, key: Key) returns (data: Bytes, locs: map<ChunkID, Locator>)
      requires AllHeld(sum, buf, pending)
      modifies this`buf, this`pending
      ensures data == old(buf) && buf == [] && pending == []
      ensures locs.Keys == PendingIDs(old(pending))
      ensures locs == LocatorsOf(old(pending), key)
      ensures forall id :: id in locs ==> Pending(id, locs[id].offset, locs[id].length) in old(pending)
      ensures forall id :: id in locs ==> locs[id].container == key
                                          && Holds(sum, data, Pending(id, locs[id].offset, locs[id].length))
    {
      hide AllHeld;
      data, locs := buf, map[];
      SealedHeld(sum, buf, pending, key);
      if |buf| == 0 { return; }
      for i := 0 to |pending|
        invariant locs == LocatorsOf(pending[..i], key)
      {
        locs := locs[pending[i].id := Locator(key, pending[i].offset, pending[i].length)];
        assert pending[..i + 1][..i] == pending[..i];
      }
      assert pending[..|pending|] == pending;
      buf, pending := [], [];
    }
  }

  /** A multiple of the alignment. */
  function Times(k: nat, align: nat): nat {
    k * align
  }

  ghost predicate Aligned(off: nat, align: nat) {
    exists k :: off == Times(k, align)
  }

  lemma PaddedIsAligned(n: nat, align: nat)
    requires align > 1
    ensures Aligned(if n % align == 0 then n else n + (align - n % align), align)
  {
    var q := n / align;
    assert n == q * align + n % align;
    assert (q + 1) * align == q * align + align;
    assert n % align == 0 ==> n == Times(q, align);
    assert n % align != 0 ==> n + (align - n % align) == Times(q + 1, align);
  }
}
