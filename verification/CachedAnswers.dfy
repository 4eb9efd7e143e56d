/**
 When a client answers from its cache, exactly: what it has stored last, has not dropped since, and has a lease for that
 still runs, all read off the run and not off the cache.
 */
module CachedAnswers {
  import opened Base
  import opened Namespace
  import opened LeaseCache
  import opened Protocol
  import opened RecallSafety
  import opened LeaseAge

  // --- one step ------------------------------------------------------------------------------

  /** The client handles an event or drops an object after its own mutation: nothing else changes. */
  lemma DroppedClient(w: World, a: Action, w': World, k: ClientID)
    requires Step(w, a, w') && (a.Deliver? || a.DropOwn?)
    ensures a.Deliver? ==> QueueOf(w.net, a.client) != []
    ensures ClientOf(w', k) == if k != a.client then ClientOf(w, k)
                               else Invalidate(ClientOf(w, k), if a.Deliver? then QueueOf(w.net, k)[0].obj else a.obj)
  {
    hide Invalidate, Taken;
    if a.Deliver? {
      HandledClient(w, a.client, k);
    }
  }

  predicate BoundTo(c: Client, dir: InodeID, name: string, ino: InodeID) {
    name in Names(c, DirObj(dir)) && Names(c, DirObj(dir))[name] == ino
  }

  /** The response of a Lookup that found something under this name is stored. */
  ghost predicate Rebinds(w: World, a: Action, k: ClientID, dir: InodeID, name: string) {
    exists x :: Binds(w, a, k, dir, name, x)
  }

  lemma NameKept(w: World, a: Action, w': World, k: ClientID, dir: InodeID, name: string, ino: InodeID)
    requires Step(w, a, w') && a.KeepName?
    ensures BoundTo(ClientOf(w', k), dir, name, ino) <==>
              Binds(w, a, k, dir, name, ino) || (BoundTo(ClientOf(w, k), dir, name, ino) && !Rebinds(w, a, k, dir, name))
  {
    hide Store, Enqueue, Register, Invalidate, Handle, Gathered, Opened, Cut;
    var l := w.lookups[a.flight];
    if l.phase.answer.Some? && Binds(w, a, k, dir, name, l.phase.answer.value) {
      assert Rebinds(w, a, k, dir, name);
    }
  }

  lemma NameStep(w: World, a: Action, w': World, k: ClientID, dir: InodeID, name: string, ino: InodeID)
    requires Step(w, a, w')
    ensures BoundTo(ClientOf(w', k), dir, name, ino) <==>
              || Binds(w, a, k, dir, name, ino)
              || (BoundTo(ClientOf(w, k), dir, name, ino) && !Rebinds(w, a, k, dir, name) && !DropsIt(w, a, k, DirObj(dir)))
  {
    hide Step, Invalidate, Names;
    if OfServer(a) {
      RemoteClients(w, a, w');
    } else if a.AskInode? || a.ReadInode? || a.GrantInode? {
      AskClients(w, a, w');
    } else if a.KeepName? {
      NameKept(w, a, w', k, dir, name, ino);
    } else if OfKeep(a) || a.KeepInode? {
      KeepsOther(w, a, w', k, dir);
    } else {
      DroppedClient(w, a, w', k);
      if k == a.client {
        InvalidateDrops(ClientOf(w, k), if a.Deliver? then QueueOf(w.net, k)[0].obj else a.obj, DirObj(dir), w.now);
      }
    }
  }

  lemma MissKept(w: World, a: Action, w': World, k: ClientID, dir: InodeID, name: string)
    requires Step(w, a, w') && a.KeepName?
    ensures name in Absent(ClientOf(w', k), DirObj(dir)) <==> Misses(w, a, k, dir, name) || name in Absent(ClientOf(w, k), DirObj(dir))
  {
    hide Store, Enqueue, Register, Invalidate, Handle, Gathered, Opened, Cut;
  }

  lemma MissStep(w: World, a: Action, w': World, k: ClientID, dir: InodeID, name: string)
    requires Step(w, a, w')
    ensures name in Absent(ClientOf(w', k), DirObj(dir)) <==>
              Misses(w, a, k, dir, name) || (name in Absent(ClientOf(w, k), DirObj(dir)) && !DropsIt(w, a, k, DirObj(dir)))
  {
    hide Step, Invalidate, Absent;
    if OfServer(a) {
      RemoteClients(w, a, w');
    } else if a.AskInode? || a.ReadInode? || a.GrantInode? {
      AskClients(w, a, w');
    } else if a.KeepName? {
      MissKept(w, a, w', k, dir, name);
    } else if OfKeep(a) || a.KeepInode? {
      KeepsOtherMiss(w, a, w', k, dir);
    } else {
      DroppedClient(w, a, w', k);
      if k == a.client {
        InvalidateDrops(ClientOf(w, k), if a.Deliver? then QueueOf(w.net, k)[0].obj else a.obj, DirObj(dir), w.now);
      }
    }
  }

  predicate CachedAs(c: Client, obj: Obj, e: Entry) {
    obj in c.cache && c.cache[obj] == e
  }

  lemma LeaseKept(w: World, a: Action, w': World, k: ClientID, dir: InodeID, e: Entry)
    requires Step(w, a, w') && a.KeepLease?
    ensures CachedAs(ClientOf(w', k), DirObj(dir), e) <==>
              if Renews(w, a, k, dir) then e == Filled(w, DIR_STUB) else CachedAs(ClientOf(w, k), DirObj(dir), e)
  {
    hide StoreName, Enqueue, Register, Invalidate, Handle, Gathered, Opened, Cut, Binding, Names, Absent;
  }

  lemma OtherKept(w: World, a: Action, w': World, k: ClientID, dir: InodeID, e: Entry)
    requires Step(w, a, w') && (a.KeepRecord? || a.KeepName? || a.KeepInode?)
    ensures CachedAs(ClientOf(w', k), DirObj(dir), e) <==> CachedAs(ClientOf(w, k), DirObj(dir), e)
  {
    hide StoreName, Store, Enqueue, Register, Invalidate, Handle, Gathered, Opened, Cut, Binding, Names, Absent;
    if a.KeepName? {
      var l := w.lookups[a.flight];
      StoreNameCache(ClientOf(w, l.client), l.dir, l.name, l.phase.answer, l.since);
    } else if a.KeepRecord? {
      var l := w.lookups[a.flight];
      StoreElsewhere(ClientOf(w, l.client), InoObj(l.phase.id), l.phase.rec, LeaseOf(w), l.phase.epoch, w.now, DirObj(dir), e);
    } else {
      var g := w.gets[a.flight];
      StoreElsewhere(ClientOf(w, g.client), InoObj(g.id), g.answer.value, LeaseOf(w), g.since, w.now, DirObj(dir), e);
    }
  }

  lemma StoreNameCache(c: Client, dir: InodeID, name: string, answer: Option<InodeID>, since: nat)
    ensures StoreName(c, dir, name, answer, since).cache == c.cache
  {
  }

  lemma StoreElsewhere(c: Client, obj: Obj, rec: InodeRecord, l: Lease, since: nat, now: Time, x: Obj, e: Entry)
    requires x != obj
    ensures CachedAs(Store(c, obj, rec, l, since, now), x, e) <==> CachedAs(c, x, e)
  {
  }

  lemma InvalidateCache(c: Client, obj: Obj, x: Obj, e: Entry)
    ensures CachedAs(Invalidate(c, obj), x, e) <==> CachedAs(c, x, e) && x != obj
  {
  }

  lemma LeaseStep(w: World, a: Action, w': World, k: ClientID, dir: InodeID, e: Entry)
    requires Step(w, a, w')
    ensures CachedAs(ClientOf(w', k), DirObj(dir), e) <==>
              if Renews(w, a, k, dir) then e == Filled(w, DIR_STUB)
              else CachedAs(ClientOf(w, k), DirObj(dir), e) && !DropsIt(w, a, k, DirObj(dir))
  {
    hide Step, Invalidate, CachedAs;
    if OfServer(a) {
      RemoteClients(w, a, w');
    } else if a.AskInode? || a.ReadInode? || a.GrantInode? {
      AskClients(w, a, w');
    } else if a.KeepLease? {
      LeaseKept(w, a, w', k, dir, e);
    } else if OfKeep(a) || a.KeepInode? {
      OtherKept(w, a, w', k, dir, e);
    } else {
      DroppedClient(w, a, w', k);
      if k == a.client {
        InvalidateCache(ClientOf(w, k), if a.Deliver? then QueueOf(w.net, k)[0].obj else a.obj, DirObj(dir), e);
      }
    }
  }

  /** The response of a GetInode or of a Lookup leaves a record of the inode in the cache. */
  ghost predicate PutsOne(w: World, a: Action, k: ClientID, id: InodeID) {
    exists e :: Puts(w, a, k, id, e)
  }

  lemma RecordStep(w: World, a: Action, w': World, k: ClientID, id: InodeID, e: Entry)
    requires Step(w, a, w')
    ensures CachedAs(ClientOf(w', k), InoObj(id), e) <==>
              || Puts(w, a, k, id, e)
              || (CachedAs(ClientOf(w, k), InoObj(id), e) && !PutsOne(w, a, k, id) && !DropsIt(w, a, k, InoObj(id)))
  {
    hide Step, ByGet, ByLookup, DropsIt;
    if CachedAs(ClientOf(w', k), InoObj(id), e) {
      CacheOfStep(w, a, w', k, id);
      if x :| Puts(w, a, k, id, x) {
        PutsStored(w, a, w', k, id, x);
      }
    }
    if Puts(w, a, k, id, e) {
      PutsStored(w, a, w', k, id, e);
    }
    if CachedAs(ClientOf(w, k), InoObj(id), e) && !PutsOne(w, a, k, id) && !DropsIt(w, a, k, InoObj(id)) {
      StaysCached(w, a, w', k, id);
      CacheOfStep(w, a, w', k, id);
      assert !Puts(w, a, k, id, ClientOf(w', k).cache[InoObj(id)]);
    }
  }

  // --- over a run ------------------------------------------------------------------------------

  /** Stored at step `j`, with no other binding of the name stored since and the directory not dropped. */
  ghost predicate BoundSince(run: seq<World>, acts: seq<Action>, j: nat, n: nat, k: ClientID, dir: InodeID, name: string, ino: InodeID)
    requires |run| == |acts| + 1 && n < |run|
  {
    && j < n && Binds(run[j], acts[j], k, dir, name, ino)
    && forall m :: j < m < n ==> !Rebinds(run[m], acts[m], k, dir, name) && !DropsIt(run[m], acts[m], k, DirObj(dir))
  }

  lemma {:induction false} BoundIff(run: seq<World>, acts: seq<Action>, n: nat, k: ClientID, dir: InodeID, name: string, ino: InodeID)
    requires IsRun(run, acts) && n < |run| && Initial(run[0])
    ensures BoundTo(ClientOf(run[n], k), dir, name, ino) <==> exists j: nat :: BoundSince(run, acts, j, n, k, dir, name, ino)
  {
    hide Step, Binds, Rebinds, DropsIt;
    if n > 0 {
      BoundIff(run, acts, n - 1, k, dir, name, ino);
      assert Step(run[n - 1], acts[n - 1], run[n - 1 + 1]);
      NameStep(run[n - 1], acts[n - 1], run[n], k, dir, name, ino);
      BoundLonger(run, acts, n, k, dir, name, ino);
    }
  }

  lemma BoundLonger(run: seq<World>, acts: seq<Action>, n: nat, k: ClientID, dir: InodeID, name: string, ino: InodeID)
    requires |run| == |acts| + 1 && 0 < n < |run|
    ensures forall j: nat :: BoundSince(run, acts, j, n, k, dir, name, ino) <==>
              || (j == n - 1 && Binds(run[j], acts[j], k, dir, name, ino))
              || (BoundSince(run, acts, j, n - 1, k, dir, name, ino)
                  && !Rebinds(run[n - 1], acts[n - 1], k, dir, name) && !DropsIt(run[n - 1], acts[n - 1], k, DirObj(dir)))
  {
    hide Binds, Rebinds, DropsIt;
  }

  ghost predicate MissedSince(run: seq<World>, acts: seq<Action>, j: nat, n: nat, k: ClientID, dir: InodeID, name: string)
    requires |run| == |acts| + 1 && n < |run|
  {
    j < n && Misses(run[j], acts[j], k, dir, name) && forall m :: j < m < n ==> !DropsIt(run[m], acts[m], k, DirObj(dir))
  }

  lemma {:induction false} MissedIff(run: seq<World>, acts: seq<Action>, n: nat, k: ClientID, dir: InodeID, name: string)
    requires IsRun(run, acts) && n < |run| && Initial(run[0])
    ensures name in Absent(ClientOf(run[n], k), DirObj(dir)) <==> exists j: nat :: MissedSince(run, acts, j, n, k, dir, name)
  {
    hide Step, Misses, DropsIt;
    if n > 0 {
      MissedIff(run, acts, n - 1, k, dir, name);
      assert Step(run[n - 1], acts[n - 1], run[n - 1 + 1]);
      MissStep(run[n - 1], acts[n - 1], run[n], k, dir, name);
      MissedLonger(run, acts, n, k, dir, name);
    }
  }

  lemma MissedLonger(run: seq<World>, acts: seq<Action>, n: nat, k: ClientID, dir: InodeID, name: string)
    requires |run| == |acts| + 1 && 0 < n < |run|
    ensures forall j: nat :: MissedSince(run, acts, j, n, k, dir, name) <==>
              || (j == n - 1 && Misses(run[j], acts[j], k, dir, name))
              || (MissedSince(run, acts, j, n - 1, k, dir, name) && !DropsIt(run[n - 1], acts[n - 1], k, DirObj(dir)))
  {
    hide Misses, DropsIt;
  }

  /** The directory's lease was last renewed at step `l` and the directory not dropped since. */
  ghost predicate RenewedSince(run: seq<World>, acts: seq<Action>, l: nat, n: nat, k: ClientID, dir: InodeID)
    requires |run| == |acts| + 1 && n < |run|
  {
    && l < n && Renews(run[l], acts[l], k, dir)
    && forall m :: l < m < n ==> !Renews(run[m], acts[m], k, dir) && !DropsIt(run[m], acts[m], k, DirObj(dir))
  }

  lemma {:induction false} RenewedIff(run: seq<World>, acts: seq<Action>, n: nat, k: ClientID, dir: InodeID, e: Entry)
    requires IsRun(run, acts) && n < |run| && Initial(run[0])
    ensures CachedAs(ClientOf(run[n], k), DirObj(dir), e) <==>
              exists l: nat :: RenewedSince(run, acts, l, n, k, dir) && e == Filled(run[l], DIR_STUB)
  {
    hide Step, Renews, DropsIt;
    if n > 0 {
      RenewedIff(run, acts, n - 1, k, dir, e);
      assert Step(run[n - 1], acts[n - 1], run[n - 1 + 1]);
      LeaseStep(run[n - 1], acts[n - 1], run[n], k, dir, e);
      RenewedLonger(run, acts, n, k, dir);
    }
  }

  lemma RenewedLonger(run: seq<World>, acts: seq<Action>, n: nat, k: ClientID, dir: InodeID)
    requires |run| == |acts| + 1 && 0 < n < |run|
    ensures forall l: nat :: RenewedSince(run, acts, l, n, k, dir) <==>
              || (l == n - 1 && Renews(run[l], acts[l], k, dir))
              || (RenewedSince(run, acts, l, n - 1, k, dir)
                  && !Renews(run[n - 1], acts[n - 1], k, dir) && !DropsIt(run[n - 1], acts[n - 1], k, DirObj(dir)))
  {
    hide Renews, DropsIt;
  }

  /** The record was stored at step `i`, the last of the inode, and not dropped since. */
  ghost predicate StoredSince(run: seq<World>, acts: seq<Action>, i: nat, n: nat, k: ClientID, id: InodeID, rec: InodeRecord)
    requires |run| == |acts| + 1 && n < |run|
  {
    && i < n && Puts(run[i], acts[i], k, id, Filled(run[i], rec))
    && forall m :: i < m < n ==> !PutsOne(run[m], acts[m], k, id) && !DropsIt(run[m], acts[m], k, InoObj(id))
  }

  lemma {:induction false} StoredIff(run: seq<World>, acts: seq<Action>, n: nat, k: ClientID, id: InodeID, e: Entry)
    requires IsRun(run, acts) && n < |run| && Initial(run[0])
    ensures CachedAs(ClientOf(run[n], k), InoObj(id), e) <==>
              exists i: nat :: StoredSince(run, acts, i, n, k, id, e.record) && e == Filled(run[i], e.record)
  {
    hide Step, Puts, PutsOne, DropsIt;
    if n > 0 {
      StoredIff(run, acts, n - 1, k, id, e);
      assert Step(run[n - 1], acts[n - 1], run[n - 1 + 1]);
      RecordStep(run[n - 1], acts[n - 1], run[n], k, id, e);
      StoredLonger(run, acts, n, k, id, e.record);
      PutsFilled(run[n - 1], acts[n - 1], k, id, e);
    }
  }

  lemma PutsFilled(w: World, a: Action, k: ClientID, id: InodeID, e: Entry)
    ensures Puts(w, a, k, id, e) ==> e == Filled(w, e.record)
  {
  }

  lemma StoredLonger(run: seq<World>, acts: seq<Action>, n: nat, k: ClientID, id: InodeID, rec: InodeRecord)
    requires |run| == |acts| + 1 && 0 < n < |run|
    ensures forall i: nat :: StoredSince(run, acts, i, n, k, id, rec) <==>
              || (i == n - 1 && Puts(run[i], acts[i], k, id, Filled(run[i], rec)))
              || (StoredSince(run, acts, i, n - 1, k, id, rec)
                  && !PutsOne(run[n - 1], acts[n - 1], k, id) && !DropsIt(run[n - 1], acts[n - 1], k, InoObj(id)))
  {
    hide Puts, PutsOne, DropsIt;
  }

  // --- answers -----------------------------------------------------------------------------------

  /** A lease counted from this step still runs: for its time to live, or for ever if it has none. */
  predicate Runs(w: World, now: Time) {
    w.ttl <= 0 || now <= w.now + w.ttl
  }

  lemma FilledRuns(c: Client, obj: Obj, w: World, rec: InodeRecord, now: Time)
    requires CachedAs(c, obj, Filled(w, rec))
    ensures Leased(c, obj, now) <==> Runs(w, now)
  {
  }

  /** The directory's lease runs at step `n`: counted from its last renewal, and the directory not dropped since. */
  ghost predicate DirLeased(run: seq<World>, acts: seq<Action>, n: nat, k: ClientID, dir: InodeID)
    requires |run| == |acts| + 1 && n < |run|
  {
    exists l: nat :: RenewedSince(run, acts, l, n, k, dir) && Runs(run[l], run[n].now)
  }

  lemma DirLeasedIff(run: seq<World>, acts: seq<Action>, n: nat, k: ClientID, dir: InodeID)
    requires IsRun(run, acts) && n < |run| && Initial(run[0])
    ensures Leased(ClientOf(run[n], k), DirObj(dir), run[n].now) <==> DirLeased(run, acts, n, k, dir)
  {
    hide Step, Initial, Renews, DropsIt, Runs, Leased;
    var c := ClientOf(run[n], k);
    if Leased(c, DirObj(dir), run[n].now) {
      LeasedIsCached(c, DirObj(dir), run[n].now);
      RenewedIff(run, acts, n, k, dir, c.cache[DirObj(dir)]);
      var l: nat :| RenewedSince(run, acts, l, n, k, dir) && c.cache[DirObj(dir)] == Filled(run[l], DIR_STUB);
      FilledRuns(c, DirObj(dir), run[l], DIR_STUB, run[n].now);
    }
    if DirLeased(run, acts, n, k, dir) {
      var l: nat :| RenewedSince(run, acts, l, n, k, dir) && Runs(run[l], run[n].now);
      RenewedIff(run, acts, n, k, dir, Filled(run[l], DIR_STUB));
      FilledRuns(c, DirObj(dir), run[l], DIR_STUB, run[n].now);
    }
  }

  lemma LeasedIsCached(c: Client, obj: Obj, now: Time)
    requires Leased(c, obj, now)
    ensures obj in c.cache
  {
  }

  /** The client answers this record of the inode: it is the last it stored, not dropped since, and its lease runs. */
  ghost predicate RecordLeased(run: seq<World>, acts: seq<Action>, n: nat, k: ClientID, id: InodeID, rec: InodeRecord)
    requires |run| == |acts| + 1 && n < |run|
  {
    exists i: nat :: StoredSince(run, acts, i, n, k, id, rec) && Runs(run[i], run[n].now)
  }

  /** In every run, exactly which record of an inode a client answers. */
  lemma RecordAnsweredIff(run: seq<World>, acts: seq<Action>, n: nat, k: ClientID, id: InodeID, rec: InodeRecord)
    requires IsRun(run, acts) && n < |run| && Initial(run[0])
    ensures CachedInode(ClientOf(run[n], k), id, run[n].now) == Some(rec) <==> RecordLeased(run, acts, n, k, id, rec)
  {
    hide Step, Initial, Puts, PutsOne, DropsIt, Runs, Leased;
    var c := ClientOf(run[n], k);
    if CachedInode(c, id, run[n].now) == Some(rec) {
      LeasedIsCached(c, InoObj(id), run[n].now);
      StoredIff(run, acts, n, k, id, c.cache[InoObj(id)]);
      var i: nat :| StoredSince(run, acts, i, n, k, id, rec) && c.cache[InoObj(id)] == Filled(run[i], rec);
      FilledRuns(c, InoObj(id), run[i], rec, run[n].now);
    }
    if RecordLeased(run, acts, n, k, id, rec) {
      var i: nat :| StoredSince(run, acts, i, n, k, id, rec) && Runs(run[i], run[n].now);
      StoredIff(run, acts, n, k, id, Filled(run[i], rec));
      FilledRuns(c, InoObj(id), run[i], rec, run[n].now);
    }
  }

  /**
   In every run, exactly when a client answers a name from its cache: the binding is the last it stored for the name, with
   the directory not dropped since; the directory's lease, from its last renewal by whatever name, runs; and the client
   answers a record of the inode. How the two leases compare does not matter.
   */
  lemma NameAnsweredIff(run: seq<World>, acts: seq<Action>, n: nat, k: ClientID, dir: InodeID, name: string, ino: InodeID)
    requires IsRun(run, acts) && n < |run| && Initial(run[0])
    ensures CachedDentry(ClientOf(run[n], k), dir, name, run[n].now) == Some(ino) <==>
              && (exists j: nat :: BoundSince(run, acts, j, n, k, dir, name, ino))
              && DirLeased(run, acts, n, k, dir)
              && (exists rec :: RecordLeased(run, acts, n, k, ino, rec))
  {
    hide Step, Initial, BoundSince, DirLeased, RecordLeased, Leased;
    var c, now := ClientOf(run[n], k), run[n].now;
    BoundIff(run, acts, n, k, dir, name, ino);
    DirLeasedIff(run, acts, n, k, dir);
    if CachedInode(c, ino, now).Some? {
      RecordAnsweredIff(run, acts, n, k, ino, CachedInode(c, ino, now).value);
    }
    if rec :| RecordLeased(run, acts, n, k, ino, rec) {
      RecordAnsweredIff(run, acts, n, k, ino, rec);
    }
  }

  /** And exactly when it answers that there is no such name: it has stored a miss, and the directory's lease runs. */
  lemma AbsenceAnsweredIff(run: seq<World>, acts: seq<Action>, n: nat, k: ClientID, dir: InodeID, name: string)
    requires IsRun(run, acts) && n < |run| && Initial(run[0])
    ensures CachedNegative(ClientOf(run[n], k), dir, name, run[n].now) <==>
              (exists j: nat :: MissedSince(run, acts, j, n, k, dir, name)) && DirLeased(run, acts, n, k, dir)
  {
    hide Step, Initial, MissedSince, DirLeased, Leased;
    MissedIff(run, acts, n, k, dir, name);
    DirLeasedIff(run, acts, n, k, dir);
  }
}
