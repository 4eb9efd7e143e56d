/** One client's lease cache (pkg/mds/client.go): what it stores, what an invalidation drops, what it may answer. */
module LeaseCache {
  import opened Base
  import opened Namespace

  /** The two lease domains of an inode: its directory contents and its record. */
  datatype Obj = DirObj(id: InodeID) | InoObj(id: InodeID)

  datatype Lease = Lease(version: nat, ttl: Time)

  /** No expiry is an immutable-class lease. */
  datatype Entry = Entry(record: InodeRecord, version: nat, expiry: Option<Time>)

  datatype Client = Client(
    cache: map<Obj, Entry>, dentries: map<Obj, map<string, InodeID>>, negatives: map<Obj, set<string>>, epochs: map<Obj, nat>)

  /** The record stored under a directory object; nothing reads it. */
  const DIR_STUB := InodeRecord(true, 0, 0, 0, 0, 0, 0, 0, 0, NoContent, Plain)

  const EMPTY := Client(map[], map[], map[], map[])

  function Epoch(c: Client, obj: Obj): nat {
    if obj in c.epochs then c.epochs[obj] else 0
  }

  function Store(c: Client, obj: Obj, rec: InodeRecord, l: Lease, since: nat, now: Time): Client {
    if Epoch(c, obj) != since then c
    else c.(cache := c.cache[obj := Entry(rec, l.version, if l.ttl <= 0 then None else Some(now + l.ttl))])
  }

  function Names(c: Client, obj: Obj): map<string, InodeID> {
    if obj in c.dentries then c.dentries[obj] else map[]
  }

  function Absent(c: Client, obj: Obj): set<string> {
    if obj in c.negatives then c.negatives[obj] else {}
  }

  /** The second sections of storeDentry and storeNegative. */
  function StoreName(c: Client, dir: InodeID, name: string, answer: Option<InodeID>, since: nat): Client {
    var obj := DirObj(dir);
    if Epoch(c, obj) != since then c
    else if answer.Some? then c.(dentries := c.dentries[obj := Names(c, obj)[name := answer.value]])
    else c.(negatives := c.negatives[obj := Absent(c, obj) + {name}])
  }

  function Invalidate(c: Client, obj: Obj): Client {
    Client(c.cache - {obj}, c.dentries - {obj}, c.negatives - {obj}, c.epochs[obj := Epoch(c, obj) + 1])
  }

  predicate Leased(c: Client, obj: Obj, now: Time) {
    obj in c.cache && (c.cache[obj].expiry.Some? ==> now <= c.cache[obj].expiry.value)
  }

  function CachedInode(c: Client, id: InodeID, now: Time): Option<InodeRecord> {
    if Leased(c, InoObj(id), now) then Some(c.cache[InoObj(id)].record) else None
  }

  function CachedDentry(c: Client, dir: InodeID, name: string, now: Time): Option<InodeID> {
    if Leased(c, DirObj(dir), now) && name in Names(c, DirObj(dir)) && CachedInode(c, Names(c, DirObj(dir))[name], now).Some?
    then Some(Names(c, DirObj(dir))[name]) else None
  }

  predicate CachedNegative(c: Client, dir: InodeID, name: string, now: Time) {
    Leased(c, DirObj(dir), now) && name in Absent(c, DirObj(dir))
  }

  /** An invalidation leaves nothing of its object to answer from, and touches no other object. */
  lemma InvalidateDrops(c: Client, obj: Obj, other: Obj, now: Time)
    ensures !Leased(Invalidate(c, obj), obj, now)
    ensures Names(Invalidate(c, obj), obj) == map[] && Absent(Invalidate(c, obj), obj) == {}
    ensures other != obj ==> && (Leased(Invalidate(c, obj), other, now) <==> Leased(c, other, now))
                             && Names(Invalidate(c, obj), other) == Names(c, other) && Absent(Invalidate(c, obj), other) == Absent(c, other)
                             && Epoch(Invalidate(c, obj), other) == Epoch(c, other)
  {
  }

  /** A response asked for before an invalidation is not stored after it, by any of the three store sections. */
  lemma LateResponseIgnored(c: Client, obj: Obj, rec: InodeRecord, l: Lease, since: nat, now: Time, name: string, answer: Option<InodeID>)
    requires since <= Epoch(c, obj)
    ensures Store(Invalidate(c, obj), obj, rec, l, since, now) == Invalidate(c, obj)
    ensures obj.DirObj? ==> StoreName(Invalidate(c, obj), obj.id, name, answer, since) == Invalidate(c, obj)
  {
  }

  /**
   A response asked for after the last invalidation is stored: from then until its time to live has passed, or for ever if
   it has none, the object answers with it. Everything else is as it was.
   */
  lemma StoredAnswers(c: Client, obj: Obj, rec: InodeRecord, l: Lease, now: Time, t: Time, other: Obj)
    requires now <= t && other != obj
    ensures var c' := Store(c, obj, rec, l, Epoch(c, obj), now);
            && (Leased(c', obj, t) <==> l.ttl <= 0 || t <= now + l.ttl)
            && obj in c'.cache && c'.cache[obj].record == rec && c'.cache[obj].version == l.version
            && (other in c'.cache <==> other in c.cache) && (other in c.cache ==> c'.cache[other] == c.cache[other])
            && c'.dentries == c.dentries && c'.negatives == c.negatives && c'.epochs == c.epochs
  {
  }

  /** A binding or a miss that was asked for after the last invalidation is stored beside those already there. */
  lemma StoredNameAnswers(c: Client, dir: InodeID, name: string, answer: Option<InodeID>, x: string, other: Obj)
    requires x != name && other != DirObj(dir)
    ensures var c', obj := StoreName(c, dir, name, answer, Epoch(c, DirObj(dir))), DirObj(dir);
            && c'.cache == c.cache && c'.epochs == c.epochs
            && (answer.Some? ==> name in Names(c', obj) && Names(c', obj)[name] == answer.value && Absent(c', obj) == Absent(c, obj))
            && (answer.None? ==> Absent(c', obj) == Absent(c, obj) + {name} && Names(c', obj) == Names(c, obj))
            && (x in Names(c', obj) <==> x in Names(c, obj)) && (x in Names(c, obj) ==> Names(c', obj)[x] == Names(c, obj)[x])
            && Names(c', other) == Names(c, other) && Absent(c', other) == Absent(c, other)
  {
  }

  /** The client, one method per critical section. */
  class LeaseClient {
    var now: Time
    var cache: map<Obj, Entry>
    var dentries: map<Obj, map<string, InodeID>>
    var negatives: map<Obj, set<string>>
    var epochs: map<Obj, nat>

    ghost function View(): Client
      reads this
    {
      Client(cache, dentries, negatives, epochs)
    }

    constructor (clock: Time)
      ensures View() == EMPTY && now == clock
    {
      now, cache, dentries, negatives, epochs := clock, map[], map[], map[], map[];
    }

    method EpochOf(obj: Obj) returns (e: nat)
      ensures e == Epoch(View(), obj)
    {
      e := if obj in epochs then epochs[obj] else 0;
    }

    method StoreEntry(obj: Obj, rec: InodeRecord, l: Lease, since: nat)
      modifies this`cache
      ensures View() == Store(old(View()), obj, rec, l, since, now)
    {
      if (if obj in epochs then epochs[obj] else 0) != since { return; }
      var expiry := None;
      if l.ttl > 0 {
        expiry := Some(now + l.ttl);
      }
      cache := cache[obj := Entry(rec, l.version, expiry)];
    }

    method BindName(dir: InodeID, name: string, ino: InodeID, since: nat)
      modifies this`dentries
      ensures View() == StoreName(old(View()), dir, name, Some(ino), since)
    {
      var obj := DirObj(dir);
      if (if obj in epochs then epochs[obj] else 0) != since { return; }
      var m := if obj in dentries then dentries[obj] else map[];
      dentries := dentries[obj := m[name := ino]];
    }

    method NoteAbsent(dir: InodeID, name: string, since: nat)
      modifies this`negatives
      ensures View() == StoreName(old(View()), dir, name, None, since)
    {
      var obj := DirObj(dir);
      if (if obj in epochs then epochs[obj] else 0) != since { return; }
      var m := if obj in negatives then negatives[obj] else {};
      negatives := negatives[obj := m + {name}];
    }

    method Drop(obj: Obj)
      modifies this`cache, this`dentries, this`negatives, this`epochs
      ensures View() == Invalidate(old(View()), obj)
    {
      epochs := epochs[obj := 1 + if obj in epochs then epochs[obj] else 0];
      cache := cache - {obj};
      dentries := dentries - {obj};
      negatives := negatives - {obj};
    }

    method GetCached(id: InodeID) returns (rec: Option<InodeRecord>)
      ensures rec == CachedInode(View(), id, now)
    {
      if InoObj(id) !in cache { return None; }
      var e := cache[InoObj(id)];
      if e.expiry.Some? && now > e.expiry.value { return None; }
      rec := Some(e.record);
    }

    /** Both halves must be leased: the binding by the directory, the record by the inode. */
    method GetCachedDentry(dir: InodeID, name: string) returns (ino: Option<InodeID>, rec: Option<InodeRecord>)
      ensures ino == CachedDentry(View(), dir, name, now)
      ensures ino.Some? ==> rec == CachedInode(View(), ino.value, now)
    {
      var obj := DirObj(dir);
      ino, rec := None, None;
      if obj !in cache { return; }
      if cache[obj].expiry.Some? && now > cache[obj].expiry.value { return; }
      if obj !in dentries || name !in dentries[obj] { return; }
      rec := GetCached(dentries[obj][name]);
      if rec.Some? {
        ino := Some(dentries[obj][name]);
      }
    }

    /** A miss is answered for as long as the directory's own lease holds. */
    method HasCachedNegative(dir: InodeID, name: string) returns (absent: bool)
      ensures absent == CachedNegative(View(), dir, name, now)
    {
      var obj := DirObj(dir);
      if obj !in cache { return false; }
      if cache[obj].expiry.Some? && now > cache[obj].expiry.value { return false; }
      absent := obj in negatives && name in negatives[obj];
    }
  }
}
