/**
 What the protocol promises about inode records: a recall that a client has handled cannot be undone by a GetInode it
 had asked before, what it can hold again by the time it acknowledges, and that every cached record was the
 authority's at some moment between its request and its storing.
 */
module RecallSafety {
  import opened Base
  import opened Namespace
  import opened LeaseCache
  import opened Protocol

  // --- epochs --------------------------------------------------------------------------------

  lemma RemoteClients(w: World, a: Action, w': World)
    requires Step(w, a, w') && OfServer(a)
    ensures w'.clients == w.clients
  {
    hide Enabled, Store, StoreName, Handle, Register, Enqueue, Gathered, Opened;
  }

  lemma RemoteGets(w: World, a: Action, w': World)
    requires Step(w, a, w') && OfServer(a)
    ensures w'.gets == w.gets
  {
    hide Enabled, Store, StoreName, Handle, Register, Enqueue, Gathered, Opened;
  }

  lemma RemoteIssued(w: World, a: Action, w': World)
    requires Step(w, a, w') && OfServer(a)
    ensures w.issued <= w'.issued
  {
    hide Enabled, Store, StoreName, Handle, Register, Enqueue, Gathered, Opened;
  }

  lemma KeepStep(w: World, a: Action, w': World, k: ClientID)
    requires Step(w, a, w') && OfKeep(a)
    ensures w'.gets == w.gets && w'.issued == w.issued && ClientOf(w', k).epochs == ClientOf(w, k).epochs
  {
  }

  predicate OfServer(a: Action) {
    || a.Advance? || a.Mutate? || a.Collect? || a.Push? || a.Recall? || a.PushRecall? || a.SendAck? || a.Reconnect? || a.List?
    || OfLookup(a)
  }

  /** A section of a Lookup before its response is stored. */
  predicate OfLookup(a: Action) {
    a.Ask? || a.GrantDir? || a.ReadName? || a.ReadRecord? || a.GrantRecord? || a.ReadEpoch?
  }

  predicate OfKeep(a: Action) {
    a.KeepRecord? || a.KeepLease? || a.KeepName?
  }

  predicate OfGet(a: Action) {
    a.AskInode? || a.ReadInode? || a.GrantInode? || a.KeepInode?
  }

  lemma GetEpochs(w: World, a: Action, w': World, k: ClientID)
    requires Step(w, a, w') && OfGet(a)
    ensures ClientOf(w', k).epochs == ClientOf(w, k).epochs
    ensures w'.issued == w.issued + if a.AskInode? then 1 else 0
  {
  }

  lemma InvalidateGrows(c: Client, obj: Obj, x: Obj)
    ensures Epoch(c, x) <= Epoch(Invalidate(c, obj), x)
  {
  }

  lemma DropGets(w: World, a: Action, w': World)
    requires Step(w, a, w') && (a.Deliver? || a.DropOwn?)
    ensures w'.gets == w.gets && w'.issued == w.issued
  {
  }

  lemma DropEpochs(w: World, a: Action, w': World, k: ClientID, obj: Obj)
    requires Step(w, a, w') && (a.Deliver? || a.DropOwn?)
    ensures Epoch(ClientOf(w, k), obj) <= Epoch(ClientOf(w', k), obj)
  {
    hide Invalidate, Epoch, Enqueue, Register, Store, StoreName;
    InvalidateGrows(ClientOf(w, k), if a.Deliver? then QueueOf(w.net, a.client)[0].obj else a.obj, obj);
  }

  /** Epochs only grow, and so does the number of requests issued. */
  lemma EpochsGrow(w: World, a: Action, w': World, k: ClientID, obj: Obj)
    requires Step(w, a, w')
    ensures Epoch(ClientOf(w, k), obj) <= Epoch(ClientOf(w', k), obj) && w.issued <= w'.issued
  {
    hide Step;
    if OfServer(a) {
      RemoteClients(w, a, w');
      RemoteIssued(w, a, w');
    } else if OfKeep(a) {
      KeepStep(w, a, w', k);
    } else if OfGet(a) {
      GetEpochs(w, a, w', k);
    } else {
      DropGets(w, a, w');
      DropEpochs(w, a, w', k, obj);
    }
  }

  /** Either an old flight, perhaps answered, or the one just issued. */
  ghost predicate FromStep(w: World, a: Action, w': World, f: nat)
    requires f in w'.gets
  {
    if a.AskInode? && f == w.issued then w'.gets[f] == GetFlight(a.client, a.id, Epoch(ClientOf(w, a.client), InoObj(a.id)), None, false)
    else f in w.gets && w'.gets[f] == w.gets[f].(answer := w'.gets[f].answer, granted := w'.gets[f].granted)
  }

  lemma GetFlights(w: World, a: Action, w': World, f: nat)
    requires Step(w, a, w') && OfGet(a) && f in w'.gets
    ensures FromStep(w, a, w', f)
  {
  }

  lemma GetsOfStep(w: World, a: Action, w': World, f: nat)
    requires Step(w, a, w') && f in w'.gets
    ensures FromStep(w, a, w', f) && (a.AskInode? ==> w'.issued == w.issued + 1)
  {
    hide Step;
    if OfServer(a) {
      RemoteGets(w, a, w');
    } else if OfKeep(a) {
      KeepStep(w, a, w', 0);
    } else if OfGet(a) {
      GetFlights(w, a, w', f);
      GetEpochs(w, a, w', 0);
    } else {
      DropGets(w, a, w');
    }
  }

  lemma DeliverIsHandle(w: World, a: Action, w': World)
    requires a.Deliver? && Step(w, a, w')
    ensures w' == Handle(w, a.client)
  {
  }

  // --- where cached records come from -----------------------------------------------------------

  /** The entry a response leaves when it is stored now. */
  function Filled(w: World, rec: InodeRecord): Entry {
    Entry(rec, 0, if w.ttl <= 0 then None else Some(w.now + w.ttl))
  }

  ghost predicate ByGet(w: World, f: nat, k: ClientID, id: InodeID, e: Entry) {
    && f in w.gets && w.gets[f].client == k && w.gets[f].id == id && w.gets[f].answer.Some? && w.gets[f].granted
    && w.gets[f].since == Epoch(ClientOf(w, k), InoObj(id)) && e == Filled(w, w.gets[f].answer.value)
  }

  ghost predicate ByLookup(w: World, f: nat, k: ClientID, id: InodeID, e: Entry) {
    && f in w.lookups && w.lookups[f].client == k && w.lookups[f].phase.Timed? && w.lookups[f].phase.id == id
    && w.lookups[f].phase.epoch == Epoch(ClientOf(w, k), InoObj(id)) && e == Filled(w, w.lookups[f].phase.rec)
  }

  ghost predicate CacheFrom(w: World, a: Action, k: ClientID, id: InodeID, e: Entry) {
    || (InoObj(id) in ClientOf(w, k).cache && ClientOf(w, k).cache[InoObj(id)] == e && !DropsIt(w, a, k, InoObj(id)))
    || (a.KeepInode? && ByGet(w, a.flight, k, id, e))
    || (a.KeepRecord? && ByLookup(w, a.flight, k, id, e))
  }

  /** This client handles an event about this object, or drops it after its own mutation. */
  ghost predicate DropsIt(w: World, a: Action, k: ClientID, obj: Obj) {
    || (a.Deliver? && a.client == k && QueueOf(w.net, k) != [] && QueueOf(w.net, k)[0].obj == obj)
    || (a.DropOwn? && a.client == k && a.obj == obj)
  }

  lemma KeepCache(w: World, a: Action, w': World, k: ClientID, id: InodeID)
    requires Step(w, a, w') && OfKeep(a) && InoObj(id) in ClientOf(w', k).cache
    ensures CacheFrom(w, a, k, id, ClientOf(w', k).cache[InoObj(id)])
  {
    hide Register, Enqueue, Gathered, Opened, Handle, Invalidate, Binding, Cut;
  }

  lemma KeepInodeCache(w: World, a: Action, w': World, k: ClientID, id: InodeID)
    requires Step(w, a, w') && a.KeepInode? && InoObj(id) in ClientOf(w', k).cache
    ensures CacheFrom(w, a, k, id, ClientOf(w', k).cache[InoObj(id)])
  {
    hide Register, Enqueue, Gathered, Opened, Handle, Invalidate, Binding, Cut;
  }

  lemma InvalidatedCache(c: Client, obj: Obj, x: Obj)
    requires x in Invalidate(c, obj).cache
    ensures x != obj && x in c.cache && Invalidate(c, obj).cache[x] == c.cache[x]
  {
  }

  lemma OwnDropCache(w: World, a: Action, w': World, k: ClientID, id: InodeID)
    requires Step(w, a, w') && a.DropOwn? && InoObj(id) in ClientOf(w', k).cache
    ensures CacheFrom(w, a, k, id, ClientOf(w', k).cache[InoObj(id)])
  {
    hide Invalidate;
    if k == a.client {
      InvalidatedCache(ClientOf(w, k), a.obj, InoObj(id));
    }
  }

  lemma DeliverCache(w: World, a: Action, w': World, k: ClientID, id: InodeID)
    requires Step(w, a, w') && a.Deliver? && InoObj(id) in ClientOf(w', k).cache
    ensures CacheFrom(w, a, k, id, ClientOf(w', k).cache[InoObj(id)])
  {
    hide Invalidate;
    if k == a.client {
      InvalidatedCache(ClientOf(w, k), QueueOf(w.net, k)[0].obj, InoObj(id));
    }
  }

  lemma AskClients(w: World, a: Action, w': World)
    requires Step(w, a, w') && (a.AskInode? || a.ReadInode? || a.GrantInode?)
    ensures w'.clients == w.clients
  {
  }

  lemma CacheOfStep(w: World, a: Action, w': World, k: ClientID, id: InodeID)
    requires Step(w, a, w') && InoObj(id) in ClientOf(w', k).cache
    ensures CacheFrom(w, a, k, id, ClientOf(w', k).cache[InoObj(id)])
  {
    hide Step;
    if OfServer(a) {
      RemoteClients(w, a, w');
    } else if a.AskInode? || a.ReadInode? || a.GrantInode? {
      AskClients(w, a, w');
    } else if OfKeep(a) {
      KeepCache(w, a, w', k, id);
    } else if a.KeepInode? {
      KeepInodeCache(w, a, w', k, id);
    } else if a.Deliver? {
      DeliverCache(w, a, w', k, id);
    } else {
      OwnDropCache(w, a, w', k, id);
    }
  }

  // --- epochs over a run -------------------------------------------------------------------------

  lemma InvalidateBumps(c: Client, obj: Obj, x: Obj)
    ensures Epoch(Invalidate(c, obj), x) == Epoch(c, x) + if x == obj then 1 else 0
  {
  }

  lemma HandledClient(w: World, h: ClientID, k: ClientID)
    requires QueueOf(w.net, h) != []
    ensures ClientOf(Handle(w, h), k) == if k == h then Invalidate(ClientOf(w, k), QueueOf(w.net, h)[0].obj) else ClientOf(w, k)
  {
    hide Invalidate, Taken;
  }

  lemma DeliverEpoch(w: World, a: Action, w': World, k: ClientID, obj: Obj)
    requires Step(w, a, w') && a.Deliver?
    ensures Epoch(ClientOf(w', k), obj) == Epoch(ClientOf(w, k), obj) + if DropsIt(w, a, k, obj) then 1 else 0
  {
    hide Step, Apply, Handle, Invalidate, Epoch, ClientOf;
    DeliverEnabled(w, a, w');
    DeliverIsHandle(w, a, w');
    HandledClient(w, a.client, k);
    InvalidateBumps(ClientOf(w, k), QueueOf(w.net, a.client)[0].obj, obj);
  }

  lemma DeliverEnabled(w: World, a: Action, w': World)
    requires a.Deliver? && Step(w, a, w')
    ensures QueueOf(w.net, a.client) != []
  {
  }

  lemma OwnDropEpoch(w: World, a: Action, w': World, k: ClientID, obj: Obj)
    requires Step(w, a, w') && a.DropOwn?
    ensures Epoch(ClientOf(w', k), obj) == Epoch(ClientOf(w, k), obj) + if DropsIt(w, a, k, obj) then 1 else 0
  {
    hide Invalidate, Epoch, Enqueue, Register, Store, StoreName;
    InvalidateBumps(ClientOf(w, k), a.obj, obj);
  }

  /** The epoch of an object counts how often the client has dropped it. */
  lemma EpochOfStep(w: World, a: Action, w': World, k: ClientID, obj: Obj)
    requires Step(w, a, w')
    ensures Epoch(ClientOf(w', k), obj) == Epoch(ClientOf(w, k), obj) + if DropsIt(w, a, k, obj) then 1 else 0
  {
    hide Step;
    if OfServer(a) {
      RemoteClients(w, a, w');
    } else if OfKeep(a) {
      KeepStep(w, a, w', k);
    } else if OfGet(a) {
      GetEpochs(w, a, w', k);
    } else if a.Deliver? {
      DeliverEpoch(w, a, w', k, obj);
    } else {
      OwnDropEpoch(w, a, w', k, obj);
    }
  }

  ghost predicate Undropped(run: seq<World>, acts: seq<Action>, i: nat, j: nat, k: ClientID, obj: Obj)
    requires |run| == |acts| + 1 && j < |run|
  {
    forall m :: i <= m < j ==> !DropsIt(run[m], acts[m], k, obj)
  }

  lemma {:induction false} EpochsBetween(run: seq<World>, acts: seq<Action>, i: nat, j: nat, k: ClientID, obj: Obj)
    requires IsRun(run, acts) && i <= j < |run|
    ensures Epoch(ClientOf(run[i], k), obj) <= Epoch(ClientOf(run[j], k), obj)
    ensures Epoch(ClientOf(run[i], k), obj) == Epoch(ClientOf(run[j], k), obj) <==> Undropped(run, acts, i, j, k, obj)
    decreases j
  {
    hide Step, DropsIt;
    if i < j {
      EpochsBetween(run, acts, i, j - 1, k, obj);
      assert Step(run[j - 1], acts[j - 1], run[j - 1 + 1]);
      EpochOfStep(run[j - 1], acts[j - 1], run[j], k, obj);
    }
  }

  // --- when a Lookup's response counts as fresh ------------------------------------------------------

  /** A Lookup that has read the inode's epoch did so in this step, or had done so. */
  ghost predicate TimedFrom(w: World, a: Action, w': World, f: nat)
    requires f in w'.lookups && w'.lookups[f].phase.Timed?
  {
    && f in w.lookups && w'.lookups[f].client == w.lookups[f].client
    && if a == ReadEpoch(f) then
         && w.lookups[f].phase == Recorded(w'.lookups[f].phase.id, w'.lookups[f].phase.rec)
         && w'.lookups[f].phase.epoch == Epoch(ClientOf(w, w.lookups[f].client), InoObj(w'.lookups[f].phase.id))
       else w'.lookups[f] == w.lookups[f]
  }

  lemma TimedOfServer(w: World, a: Action, w': World, f: nat)
    requires Step(w, a, w') && OfLookup(a)
    requires f in w'.lookups && w'.lookups[f].phase.Timed?
    ensures TimedFrom(w, a, w', f)
  {
    hide Register, Binding, Epoch;
  }

  lemma TimedOfKeep(w: World, a: Action, w': World, f: nat)
    requires Step(w, a, w') && OfKeep(a) && f in w'.lookups && w'.lookups[f].phase.Timed?
    ensures TimedFrom(w, a, w', f)
  {
    hide Store, StoreName;
  }

  lemma TimedOfStep(w: World, a: Action, w': World, f: nat)
    requires Step(w, a, w') && f in w'.lookups && w'.lookups[f].phase.Timed?
    ensures TimedFrom(w, a, w', f)
  {
    hide Step;
    if OfKeep(a) {
      TimedOfKeep(w, a, w', f);
    } else if OfLookup(a) {
      TimedOfServer(w, a, w', f);
    } else {
      LookupsElsewhere(w, a, w');
    }
  }

  /** The step at which the client, with the response in hand, read the epoch. */
  lemma {:induction false} TimedAt(run: seq<World>, acts: seq<Action>, n: nat, f: nat) returns (q: nat)
    requires IsRun(run, acts) && n < |run| && Initial(run[0]) && f in run[n].lookups && run[n].lookups[f].phase.Timed?
    ensures q < n && acts[q] == ReadEpoch(f)
    ensures var l := run[n].lookups[f];
            && l.phase.epoch == Epoch(ClientOf(run[q], l.client), InoObj(l.phase.id))
            && f in run[q].lookups && run[q].lookups[f].client == l.client && run[q].lookups[f].phase == Recorded(l.phase.id, l.phase.rec)
  {
    hide Step, Initial;
    InitialIsEmpty(run[0]);
    assert Step(run[n - 1], acts[n - 1], run[n - 1 + 1]);
    TimedOfStep(run[n - 1], acts[n - 1], run[n], f);
    q := n - 1;
    if acts[q] != ReadEpoch(f) {
      q := TimedAt(run, acts, n - 1, f);
    }
  }

  /**
   Exactly when the response of a Lookup is stored, over any run: if the client has not dropped the inode's record since
   it read the epoch at step `q`, with the response already in hand. What it dropped before that step, acknowledged
   recalls included, does not count.
   */
  lemma LookupStoredIff(run: seq<World>, acts: seq<Action>, n: nat, f: nat) returns (q: nat)
    requires IsRun(run, acts) && n < |run| && Initial(run[0]) && f in run[n].lookups && run[n].lookups[f].phase.Timed?
    ensures q < n && acts[q] == ReadEpoch(f)
    ensures var l := run[n].lookups[f];
            if Undropped(run, acts, q, n, l.client, InoObj(l.phase.id))
            then ByLookup(run[n], f, l.client, l.phase.id, Filled(run[n], l.phase.rec)) && Stored(run[n], f)
            else ClientOf(Apply(run[n], KeepRecord(f)), l.client) == ClientOf(run[n], l.client)
  {
    hide Undropped;
    q := TimedAt(run, acts, n, f);
    var l := run[n].lookups[f];
    EpochsBetween(run, acts, q, n, l.client, InoObj(l.phase.id));
  }

  /** The step at which a GetInode was sent, with the epoch of that moment. */
  lemma {:induction false} AskedAt(run: seq<World>, acts: seq<Action>, n: nat, f: nat) returns (q: nat)
    requires IsRun(run, acts) && n < |run| && Initial(run[0]) && f in run[n].gets
    ensures var g := run[n].gets[f];
            && q < n && acts[q] == AskInode(g.client, g.id) && run[q].issued == f
            && g.since == Epoch(ClientOf(run[q], g.client), InoObj(g.id))
  {
    hide Step, Initial;
    InitialIsEmpty(run[0]);
    q := n - 1;
    assert Step(run[q], acts[q], run[q + 1]);
    GetsOfStep(run[q], acts[q], run[n], f);
    if !(acts[q].AskInode? && f == run[q].issued) {
      q := AskedAt(run, acts, n - 1, f);
    }
  }

  /** Exactly when the response of a GetInode is stored: if the client has not dropped the inode's record since it asked. */
  lemma GetStoredIff(run: seq<World>, acts: seq<Action>, n: nat, f: nat) returns (q: nat)
    requires IsRun(run, acts) && n < |run| && Initial(run[0]) && Enabled(run[n], KeepInode(f))
    ensures var g := run[n].gets[f]; var c, c' := ClientOf(run[n], g.client), ClientOf(Apply(run[n], KeepInode(f)), g.client);
            && q < n && acts[q] == AskInode(g.client, g.id) && run[q].issued == f
            && if Undropped(run, acts, q, n, g.client, InoObj(g.id))
               then InoObj(g.id) in c'.cache && c'.cache[InoObj(g.id)] == Filled(run[n], g.answer.value)
               else c' == c
  {
    hide Undropped;
    q := AskedAt(run, acts, n, f);
    var g := run[n].gets[f];
    EpochsBetween(run, acts, q, n, g.client, InoObj(g.id));
  }

  /** Keeping this Lookup's record leaves it in the cache, leased from now. */
  ghost predicate Stored(w: World, f: nat)
    requires f in w.lookups && w.lookups[f].phase.Timed?
  {
    var l := w.lookups[f];
    var c := ClientOf(Apply(w, KeepRecord(f)), l.client);
    InoObj(l.phase.id) in c.cache && c.cache[InoObj(l.phase.id)] == Filled(w, l.phase.rec)
  }

  /** The step leaves this entry in the client's cache. */
  ghost predicate Puts(w: World, a: Action, k: ClientID, id: InodeID, e: Entry) {
    (a.KeepInode? && ByGet(w, a.flight, k, id, e)) || (a.KeepRecord? && ByLookup(w, a.flight, k, id, e))
  }

  /** The entry was stored at step `j`, by a GetInode asked after step `i` or a Lookup that read the epoch after it, at `q`. */
  ghost predicate RestoredBy(run: seq<World>, acts: seq<Action>, i: nat, j: nat, q: nat, k: ClientID, id: InodeID, e: Entry)
    requires |run| == |acts| + 1 && j < |acts| && i < |run|
  {
    && Puts(run[j], acts[j], k, id, e) && i < q < j
    && ((acts[j].KeepInode? && acts[q] == AskInode(k, id) && run[q].issued == acts[j].flight)
        || (acts[j].KeepRecord? && acts[q] == ReadEpoch(acts[j].flight)))
  }

  lemma PutLater(run: seq<World>, acts: seq<Action>, i: nat, j: nat, k: ClientID, id: InodeID, e: Entry) returns (q: nat)
    requires IsRun(run, acts) && i < j < |acts| && Initial(run[0]) && DropsIt(run[i], acts[i], k, InoObj(id))
    requires Puts(run[j], acts[j], k, id, e)
    ensures RestoredBy(run, acts, i, j, q, k, id, e)
  {
    hide Step, Initial, DropsIt;
    if acts[j].KeepInode? {
      q := AskedAt(run, acts, j, acts[j].flight);
    } else {
      q := TimedAt(run, acts, j, acts[j].flight);
    }
    EpochsBetween(run, acts, q, j, k, InoObj(id));
    NotDropping(run[q], acts[q], k, InoObj(id));
    assert q != i;
  }

  lemma NotDropping(w: World, a: Action, k: ClientID, obj: Obj)
    ensures DropsIt(w, a, k, obj) ==> a.Deliver? || a.DropOwn?
  {
  }

  /** The client handles a recall of this inode. */
  ghost predicate HandlesRecall(w: World, a: Action, k: ClientID, id: InodeID) {
    a == Deliver(k) && QueueOf(w.net, k) != [] && QueueOf(w.net, k)[0].Recalled? && QueueOf(w.net, k)[0].obj == InoObj(id)
  }

  /**
   After a client has dropped an inode's record at step `i`, handling a recall or otherwise, a record of that inode is back
   in its cache only through the response of a GetInode asked afterwards, or of a Lookup that read the inode's epoch
   afterwards, and not dropped since.
   */
  lemma {:induction false} RestoredOnlyByLater(run: seq<World>, acts: seq<Action>, i: nat, n: nat, k: ClientID, id: InodeID)
    returns (j: nat, q: nat)
    requires IsRun(run, acts) && i < n < |run| && Initial(run[0]) && DropsIt(run[i], acts[i], k, InoObj(id))
    requires InoObj(id) in ClientOf(run[n], k).cache
    ensures i < j < n && RestoredBy(run, acts, i, j, q, k, id, ClientOf(run[n], k).cache[InoObj(id)])
    ensures Undropped(run, acts, j, n, k, InoObj(id))
    decreases n
  {
    hide Step, ByGet, ByLookup, DropsIt, Initial;
    j, q := n - 1, 0;
    assert Step(run[j], acts[j], run[j + 1]);
    CacheOfStep(run[j], acts[j], run[n], k, id);
    var e := ClientOf(run[n], k).cache[InoObj(id)];
    if Puts(run[j], acts[j], k, id, e) {
      NotDropping(run[j], acts[j], k, InoObj(id));
      assert j != i;
      q := PutLater(run, acts, i, j, k, id, e);
    } else {
      j, q := RestoredOnlyByLater(run, acts, i, n - 1, k, id);
    }
  }

  lemma PutsStored(w: World, a: Action, w': World, k: ClientID, id: InodeID, e: Entry)
    requires Step(w, a, w') && Puts(w, a, k, id, e)
    ensures InoObj(id) in ClientOf(w', k).cache && ClientOf(w', k).cache[InoObj(id)] == e
  {
    hide Register, Enqueue, Gathered, Opened, Handle, Invalidate, Binding, Cut;
  }

  lemma KeepsCached(w: World, a: Action, w': World, k: ClientID, id: InodeID)
    requires Step(w, a, w') && (OfKeep(a) || a.KeepInode?) && InoObj(id) in ClientOf(w, k).cache
    ensures InoObj(id) in ClientOf(w', k).cache
  {
    hide Register, Enqueue, Gathered, Opened, Handle, Invalidate, Binding, Cut;
  }

  lemma InvalidateKeeps(c: Client, obj: Obj, x: Obj)
    requires x in c.cache && x != obj
    ensures x in Invalidate(c, obj).cache && Invalidate(c, obj).cache[x] == c.cache[x]
  {
  }

  lemma DropsCached(w: World, a: Action, w': World, k: ClientID, id: InodeID)
    requires Step(w, a, w') && (a.Deliver? || a.DropOwn?) && InoObj(id) in ClientOf(w, k).cache && !DropsIt(w, a, k, InoObj(id))
    ensures InoObj(id) in ClientOf(w', k).cache
  {
    hide Invalidate, Taken;
    if k == a.client {
      InvalidateKeeps(ClientOf(w, k), if a.Deliver? then QueueOf(w.net, k)[0].obj else a.obj, InoObj(id));
    }
  }

  /** Only dropping it takes an inode's record from the cache. */
  lemma StaysCached(w: World, a: Action, w': World, k: ClientID, id: InodeID)
    requires Step(w, a, w') && InoObj(id) in ClientOf(w, k).cache && !DropsIt(w, a, k, InoObj(id))
    ensures InoObj(id) in ClientOf(w', k).cache
  {
    hide Step, DropsIt;
    if OfServer(a) {
      RemoteClients(w, a, w');
    } else if a.AskInode? || a.ReadInode? || a.GrantInode? {
      AskClients(w, a, w');
    } else if OfKeep(a) || a.KeepInode? {
      KeepsCached(w, a, w', k, id);
    } else {
      DropsCached(w, a, w', k, id);
    }
  }

  lemma {:induction false} CachedSince(run: seq<World>, acts: seq<Action>, j: nat, n: nat, k: ClientID, id: InodeID)
    requires IsRun(run, acts) && j <= n < |run| && InoObj(id) in ClientOf(run[j], k).cache && Undropped(run, acts, j, n, k, InoObj(id))
    ensures InoObj(id) in ClientOf(run[n], k).cache
    decreases n
  {
    hide Step, DropsIt;
    if j < n {
      CachedSince(run, acts, j, n - 1, k, id);
      assert Step(run[n - 1], acts[n - 1], run[n - 1 + 1]);
      StaysCached(run[n - 1], acts[n - 1], run[n], k, id);
    }
  }

  /** Some entry was stored so and has not been dropped. */
  ghost predicate Restored(run: seq<World>, acts: seq<Action>, i: nat, n: nat, k: ClientID, id: InodeID)
    requires |run| == |acts| + 1 && i < n < |run|
  {
    exists j: nat, q: nat, e: Entry :: i < j < n && RestoredBy(run, acts, i, j, q, k, id, e) && Undropped(run, acts, j, n, k, InoObj(id))
  }

  /**
   What a client holds after it has dropped an inode's record at step `i`: a record of it exactly if a GetInode asked
   afterwards, or a Lookup that read the epoch afterwards, stored one that it has not dropped since.
   */
  lemma HeldAfterDrop(run: seq<World>, acts: seq<Action>, i: nat, n: nat, k: ClientID, id: InodeID)
    requires IsRun(run, acts) && i < n < |run| && Initial(run[0]) && DropsIt(run[i], acts[i], k, InoObj(id))
    ensures InoObj(id) in ClientOf(run[n], k).cache <==> Restored(run, acts, i, n, k, id)
  {
    hide Step, Initial, DropsIt, RestoredBy;
    if InoObj(id) in ClientOf(run[n], k).cache {
      var j, q := RestoredOnlyByLater(run, acts, i, n, k, id);
    }
    if Restored(run, acts, i, n, k, id) {
      var j: nat, q: nat, e: Entry :| i < j < n && RestoredBy(run, acts, i, j, q, k, id, e) && Undropped(run, acts, j, n, k, InoObj(id));
      RestoredPuts(run, acts, i, j, q, k, id, e);
      assert Step(run[j], acts[j], run[j + 1]);
      PutsStored(run[j], acts[j], run[j + 1], k, id, e);
      CachedSince(run, acts, j + 1, n, k, id);
    }
  }

  lemma RestoredPuts(run: seq<World>, acts: seq<Action>, i: nat, j: nat, q: nat, k: ClientID, id: InodeID, e: Entry)
    requires |run| == |acts| + 1 && j < |acts| && i < |run| && RestoredBy(run, acts, i, j, q, k, id, e)
    ensures Puts(run[j], acts[j], k, id, e)
  {
  }

  // --- acknowledgements --------------------------------------------------------------------------

  lemma DebtOfStep(w: World, a: Action, w': World, d: Debt)
    requires Step(w, a, w') && d in w'.debts && d !in w.debts
    ensures a == Deliver(d.client) && QueueOf(w.net, d.client) != [] && QueueOf(w.net, d.client)[0] == Recalled(d.obj, d.recall)
  {
    hide Store, StoreName, Invalidate, Binding, Register, Enqueue, Gathered, Opened, Cut, Epoch;
  }

  lemma AckOfStep(w: World, a: Action, w': World, k: Ack)
    requires Step(w, a, w') && k in w'.acks && k !in w.acks
    ensures a.SendAck? && a.arrives && a.debt in w.debts && k == Ack(a.debt.client, a.debt.obj, a.debt.recall, w.issued)
  {
    hide Store, StoreName, Invalidate, Binding, Register, Enqueue, Gathered, Opened, Cut, Epoch;
  }

  /** What is owed is owed since the recall was handled. */
  lemma {:induction false} DebtAt(run: seq<World>, acts: seq<Action>, n: nat, d: Debt) returns (h: nat)
    requires IsRun(run, acts) && n < |run| && Initial(run[0]) && d in run[n].debts
    ensures h < n && acts[h] == Deliver(d.client)
    ensures QueueOf(run[h].net, d.client) != [] && QueueOf(run[h].net, d.client)[0] == Recalled(d.obj, d.recall)
  {
    hide Step;
    h := n - 1;
    assert Step(run[h], acts[h], run[h + 1]);
    if d in run[h].debts {
      h := DebtAt(run, acts, n - 1, d);
    } else {
      DebtOfStep(run[h], acts[h], run[n], d);
    }
  }

  /** A client acknowledges a recall only after it has dropped its copy: every acknowledgement was sent at `t` for one handled at `h`. */
  lemma {:induction false} AckedAt(run: seq<World>, acts: seq<Action>, n: nat, a: Ack) returns (h: nat, t: nat)
    requires IsRun(run, acts) && n < |run| && Initial(run[0]) && a in run[n].acks
    ensures h < t < n && acts[t] == SendAck(Debt(a.client, a.obj, a.recall), true) && a.issued == run[t].issued
    ensures acts[h] == Deliver(a.client) && QueueOf(run[h].net, a.client) != [] && QueueOf(run[h].net, a.client)[0] == Recalled(a.obj, a.recall)
    ensures a.obj !in ClientOf(run[h + 1], a.client).cache
  {
    hide Step;
    t := n - 1;
    assert Step(run[t], acts[t], run[t + 1]);
    if a in run[t].acks {
      h, t := AckedAt(run, acts, n - 1, a);
    } else {
      AckOfStep(run[t], acts[t], run[n], a);
      h := DebtAt(run, acts, t, acts[t].debt);
      assert Step(run[h], acts[h], run[h + 1]);
      DeliverGone(run[h], acts[h], run[h + 1]);
    }
  }

  lemma DeliverGone(w: World, a: Action, w': World)
    requires Step(w, a, w') && a.Deliver? && QueueOf(w.net, a.client) != []
    ensures QueueOf(w.net, a.client)[0].obj !in ClientOf(w', a.client).cache
  {
    hide Step, Handle;
    DeliverIsHandle(w, a, w');
    HandledClient(w, a.client, a.client);
  }

  lemma {:induction false} IssuedGrows(run: seq<World>, acts: seq<Action>, i: nat, n: nat)
    requires IsRun(run, acts) && i <= n < |run|
    ensures run[i].issued <= run[n].issued
    decreases n
  {
    hide Step;
    if i < n {
      IssuedGrows(run, acts, i, n - 1);
      assert Step(run[n - 1], acts[n - 1], run[n - 1 + 1]);
      EpochsGrow(run[n - 1], acts[n - 1], run[n], 0, InoObj(0));
    }
  }

  /**
   A GetInode that a client had issued by the time it acknowledged a recall of the inode, and whose response arrives now.
   The acknowledgement was sent at `t`, for a recall that was handled at `h`; the request was asked at `q`, before `t`. Its
   record is ignored exactly if the client has dropped the inode since it asked. So it always is if the client asked
   before it handled the recall, but one asked between the drop and the acknowledgement is stored.
   */
  lemma AckedGetIgnored(run: seq<World>, acts: seq<Action>, n: nat, f: nat, a: Ack) returns (h: nat, t: nat, q: nat)
    requires IsRun(run, acts) && n < |run| && Initial(run[0]) && a in run[n].acks && Enabled(run[n], KeepInode(f))
    requires f < a.issued && run[n].gets[f].client == a.client && InoObj(run[n].gets[f].id) == a.obj
    ensures h < t < n && acts[t] == SendAck(Debt(a.client, a.obj, a.recall), true) && HandlesRecall(run[h], acts[h], a.client, run[n].gets[f].id)
    ensures q < t && acts[q] == AskInode(a.client, run[n].gets[f].id) && run[q].issued == f
    ensures var c, c' := ClientOf(run[n], a.client), ClientOf(Apply(run[n], KeepInode(f)), a.client);
            && (if Undropped(run, acts, q, n, a.client, a.obj) then a.obj in c'.cache && c'.cache[a.obj] == Filled(run[n], run[n].gets[f].answer.value)
                else c' == c)
            && (q < h ==> c' == c)
  {
    hide Step, Initial;
    h, t := AckedAt(run, acts, n, a);
    q := GetStoredIff(run, acts, n, f);
    if t <= q {
      IssuedGrows(run, acts, t, q);
    }
    assert DropsIt(run[h], acts[h], a.client, a.obj);
  }

  /** And what a client holds when it acknowledges a recall: a record exactly if it stored one that it asked for after the drop. */
  lemma HeldAtAck(run: seq<World>, acts: seq<Action>, n: nat, a: Ack, id: InodeID) returns (h: nat, t: nat)
    requires IsRun(run, acts) && n < |run| && Initial(run[0]) && a in run[n].acks && a.obj == InoObj(id)
    ensures h < t < n && acts[t] == SendAck(Debt(a.client, a.obj, a.recall), true) && HandlesRecall(run[h], acts[h], a.client, id)
    ensures InoObj(id) in ClientOf(run[t], a.client).cache <==> Restored(run, acts, h, t, a.client, id)
  {
    hide Step, Initial, Restored;
    h, t := AckedAt(run, acts, n, a);
    HeldAfterDrop(run, acts, h, t, a.client, id);
  }

  // --- every cached record was the authority's --------------------------------------------------

  /** The record was read at the authority at step `r`, for the request that this client sent at step `q`. */
  ghost predicate WasCurrent(run: seq<World>, acts: seq<Action>, n: nat, k: ClientID, id: InodeID, rec: InodeRecord, q: nat, r: nat)
    requires |run| == |acts| + 1 && n < |run|
  {
    && q < r < n && id in run[r].inode && run[r].inode[id] == rec
    && ((acts[q] == AskInode(k, id) && acts[r] == ReadInode(run[q].issued))
        || (acts[q].Ask? && acts[q].client == k && acts[r] == ReadRecord(run[q].issued)))
  }

  lemma GetAnswered(w: World, a: Action, w': World, f: nat)
    requires Step(w, a, w') && f in w'.gets && f in w.gets && w'.gets[f].answer != w.gets[f].answer && !a.AskInode?
    ensures a.ReadInode? && a.flight == f && w.gets[f].id in w.inode && w'.gets[f].answer == Some(w.inode[w.gets[f].id])
  {
    hide Step;
    if OfServer(a) {
      RemoteGets(w, a, w');
    } else if OfKeep(a) {
      KeepStep(w, a, w', 0);
    } else if OfGet(a) {
      GetAnsweredByRead(w, a, w', f);
    } else {
      DropGets(w, a, w');
    }
  }

  lemma GetAnsweredByRead(w: World, a: Action, w': World, f: nat)
    requires Step(w, a, w') && OfGet(a) && f in w'.gets && f in w.gets && w'.gets[f].answer != w.gets[f].answer && !a.AskInode?
    ensures a.ReadInode? && a.flight == f && w.gets[f].id in w.inode && w'.gets[f].answer == Some(w.inode[w.gets[f].id])
  {
  }

  lemma {:induction false} GetHistory(run: seq<World>, acts: seq<Action>, n: nat, f: nat) returns (q: nat, r: nat)
    requires IsRun(run, acts) && n < |run| && Initial(run[0]) && f in run[n].gets
    ensures q < n && acts[q] == AskInode(run[n].gets[f].client, run[n].gets[f].id) && run[q].issued == f
    ensures run[n].gets[f].answer.Some? ==>
              WasCurrent(run, acts, n, run[n].gets[f].client, run[n].gets[f].id, run[n].gets[f].answer.value, q, r)
  {
    hide Step, Initial;
    InitialIsEmpty(run[0]);
    var w, a := run[n - 1], acts[n - 1];
    assert Step(w, a, run[n - 1 + 1]);
    GetsOfStep(w, a, run[n], f);
    if a.AskInode? && f == w.issued {
      q, r := n - 1, n;
    } else {
      q, r := GetHistory(run, acts, n - 1, f);
      if run[n].gets[f].answer != w.gets[f].answer {
        AskKeepsAnswers(w, a, run[n], f);
        GetAnswered(w, a, run[n], f);
        r := n - 1;
      }
    }
  }

  lemma InitialIsEmpty(w: World)
    requires Initial(w)
    ensures w.gets == map[] && w.lookups == map[] && w.clients == map[]
  {
  }

  lemma AskKeepsAnswers(w: World, a: Action, w': World, f: nat)
    requires Step(w, a, w') && f in w.gets && f in w'.gets
    ensures a.AskInode? && f != w.issued ==> w'.gets[f] == w.gets[f]
  {
  }

  /** The record a Lookup in flight carries. */
  function Carried(p: Phase): Option<(InodeID, InodeRecord)> {
    match p
    case Fetched(id, rec) => Some((id, rec))
    case Recorded(id, rec) => Some((id, rec))
    case Timed(id, rec, _) => Some((id, rec))
    case _ => None
  }

  /** Either an old flight, further on, or the one just issued; a record it carries anew was read in this step. */
  ghost predicate LookupFrom(w: World, a: Action, w': World, f: nat)
    requires f in w'.lookups
  {
    if a.Ask? && f == w.issued then w'.lookups[f].client == a.client && w'.lookups[f].phase.Sent?
    else
      && f in w.lookups && w'.lookups[f].client == w.lookups[f].client
      && (Carried(w'.lookups[f].phase).Some? ==>
            || Carried(w'.lookups[f].phase) == Carried(w.lookups[f].phase)
            || (a == ReadRecord(f) && var (id, rec) := Carried(w'.lookups[f].phase).value; id in w.inode && w.inode[id] == rec))
  }

  lemma LookupsOfServer(w: World, a: Action, w': World, f: nat)
    requires Step(w, a, w') && OfLookup(a) && f in w'.lookups
    ensures LookupFrom(w, a, w', f)
  {
    hide Register, Binding, Epoch;
  }

  lemma LookupsOfKeep(w: World, a: Action, w': World, f: nat)
    requires Step(w, a, w') && OfKeep(a) && f in w'.lookups
    ensures LookupFrom(w, a, w', f)
  {
    hide Store, StoreName;
  }

  lemma LookupsElsewhere(w: World, a: Action, w': World)
    requires Step(w, a, w') && !OfKeep(a) && !OfLookup(a)
    ensures w'.lookups == w.lookups
  {
    hide Enqueue, Register, Gathered, Opened, Store, StoreName, Invalidate, Taken;
  }

  lemma LookupsOfStep(w: World, a: Action, w': World, f: nat)
    requires Step(w, a, w') && f in w'.lookups
    ensures LookupFrom(w, a, w', f)
  {
    hide Step;
    if OfKeep(a) {
      LookupsOfKeep(w, a, w', f);
    } else if OfLookup(a) {
      LookupsOfServer(w, a, w', f);
    } else {
      LookupsElsewhere(w, a, w');
    }
  }

  lemma {:induction false} LookupHistory(run: seq<World>, acts: seq<Action>, n: nat, f: nat) returns (q: nat, r: nat)
    requires IsRun(run, acts) && n < |run| && Initial(run[0]) && f in run[n].lookups
    ensures q < n && acts[q].Ask? && acts[q].client == run[n].lookups[f].client && run[q].issued == f
    ensures Carried(run[n].lookups[f].phase).Some? ==>
              var (id, rec) := Carried(run[n].lookups[f].phase).value;
              WasCurrent(run, acts, n, run[n].lookups[f].client, id, rec, q, r)
  {
    hide Step, Initial;
    InitialIsEmpty(run[0]);
    var w, a := run[n - 1], acts[n - 1];
    assert Step(w, a, run[n - 1 + 1]);
    LookupsOfStep(w, a, run[n], f);
    if a.Ask? && f == w.issued {
      q, r := n - 1, n;
    } else {
      q, r := LookupHistory(run, acts, n - 1, f);
      if Carried(run[n].lookups[f].phase) != Carried(w.lookups[f].phase) {
        r := n - 1;
      }
    }
  }

  /**
   A cached inode record, whatever pushes were lost: it was stored at some step `s`, by a request of this client sent
   at `q`, having been the authority's record at a step `r` in between, and it is answered from for no longer than
   the lease's time to live after `s`.
   */
  lemma {:induction false} CachedWasCurrent(run: seq<World>, acts: seq<Action>, n: nat, k: ClientID, id: InodeID)
    returns (q: nat, r: nat, s: nat)
    requires IsRun(run, acts) && n < |run| && Initial(run[0]) && InoObj(id) in ClientOf(run[n], k).cache
    ensures s < n && WasCurrent(run, acts, s, k, id, ClientOf(run[n], k).cache[InoObj(id)].record, q, r)
    ensures ClientOf(run[n], k).cache[InoObj(id)] == Filled(run[s], ClientOf(run[n], k).cache[InoObj(id)].record)
    ensures run[s].ttl > 0 && CachedInode(ClientOf(run[n], k), id, run[n].now).Some? ==> run[n].now <= run[s].now + run[s].ttl
  {
    hide Step, Initial, Epoch, DropsIt;
    InitialIsEmpty(run[0]);
    var w, a := run[n - 1], acts[n - 1];
    var e := ClientOf(run[n], k).cache[InoObj(id)];
    assert Step(w, a, run[n - 1 + 1]);
    CacheOfStep(w, a, run[n], k, id);
    if a.KeepInode? && ByGet(w, a.flight, k, id, e) {
      q, r := GetHistory(run, acts, n - 1, a.flight);
      s := n - 1;
    } else if a.KeepRecord? && ByLookup(w, a.flight, k, id, e) {
      q, r := LookupHistory(run, acts, n - 1, a.flight);
      s := n - 1;
    } else {
      q, r, s := CachedWasCurrent(run, acts, n - 1, k, id);
    }
  }

  // --- who is told of a change -------------------------------------------------------------------

  lemma SubsGrow(w: World, a: Action, w': World)
    requires Step(w, a, w')
    ensures w.net.subs <= w'.net.subs && w.net.lost <= w'.net.lost
  {
    hide Store, StoreName, Invalidate;
  }

  /** A response is sent once its client is registered for pushes about the inode, or refused. */
  ghost predicate GetRegistered(w: World, f: nat) {
    f in w.gets && w.gets[f].granted ==> Sub(w.gets[f].client, InoObj(w.gets[f].id)) in w.net.subs + w.net.lost
  }

  ghost predicate LookupRegistered(w: World, f: nat) {
    f in w.lookups && (w.lookups[f].phase.Recorded? || w.lookups[f].phase.Timed?) ==>
      Sub(w.lookups[f].client, InoObj(w.lookups[f].phase.id)) in w.net.subs + w.net.lost
  }

  ghost predicate CacheRegistered(w: World, k: ClientID, id: InodeID) {
    InoObj(id) in ClientOf(w, k).cache ==> Sub(k, InoObj(id)) in w.net.subs + w.net.lost
  }

  ghost predicate Registered(w: World) {
    && (forall f :: GetRegistered(w, f)) && (forall f :: LookupRegistered(w, f))
    && (forall k: ClientID, id: InodeID :: CacheRegistered(w, k, id))
  }

  lemma GrantInodeRegisters(w: World, a: Action, w': World, f: nat)
    requires Step(w, a, w') && OfGet(a) && f in w'.gets && f in w.gets && w'.gets[f].granted && !w.gets[f].granted && !(a.AskInode? && f == w.issued)
    ensures Sub(w.gets[f].client, InoObj(w.gets[f].id)) in w'.net.subs + w'.net.lost
  {
  }

  lemma GrantedRegisters(w: World, a: Action, w': World, f: nat)
    requires Step(w, a, w') && f in w'.gets && f in w.gets && w'.gets[f].granted && !w.gets[f].granted && !(a.AskInode? && f == w.issued)
    ensures Sub(w.gets[f].client, InoObj(w.gets[f].id)) in w'.net.subs + w'.net.lost
  {
    hide Step;
    if OfServer(a) {
      RemoteGets(w, a, w');
    } else if OfKeep(a) {
      KeepStep(w, a, w', 0);
    } else if OfGet(a) {
      GrantInodeRegisters(w, a, w', f);
    } else {
      DropGets(w, a, w');
    }
  }

  lemma GetRegisteredStep(w: World, a: Action, w': World, f: nat)
    requires Step(w, a, w') && GetRegistered(w, f)
    ensures GetRegistered(w', f)
  {
    hide Step;
    SubsGrow(w, a, w');
    if f in w'.gets {
      GetsOfStep(w, a, w', f);
      if !(a.AskInode? && f == w.issued) && w'.gets[f].granted && !w.gets[f].granted {
        GrantedRegisters(w, a, w', f);
      }
    }
  }

  lemma LookupRegisteredServer(w: World, a: Action, w': World, f: nat)
    requires Step(w, a, w') && OfLookup(a) && LookupRegistered(w, f)
    ensures LookupRegistered(w', f)
  {
    hide Binding, Epoch;
  }

  lemma LookupRegisteredKeep(w: World, a: Action, w': World, f: nat)
    requires Step(w, a, w') && OfKeep(a) && LookupRegistered(w, f)
    ensures LookupRegistered(w', f)
  {
    hide Store, StoreName;
  }

  lemma LookupRegisteredStep(w: World, a: Action, w': World, f: nat)
    requires Step(w, a, w') && LookupRegistered(w, f)
    ensures LookupRegistered(w', f)
  {
    hide Step;
    if OfKeep(a) {
      LookupRegisteredKeep(w, a, w', f);
    } else if OfLookup(a) {
      LookupRegisteredServer(w, a, w', f);
    } else {
      LookupsElsewhere(w, a, w');
      SubsGrow(w, a, w');
    }
  }

  lemma CacheRegisteredStep(w: World, a: Action, w': World, k: ClientID, id: InodeID)
    requires Step(w, a, w') && Registered(w)
    ensures CacheRegistered(w', k, id)
  {
    hide Step;
    SubsGrow(w, a, w');
    if InoObj(id) in ClientOf(w', k).cache {
      var e := ClientOf(w', k).cache[InoObj(id)];
      CacheOfStep(w, a, w', k, id);
      if a.KeepInode? && ByGet(w, a.flight, k, id, e) {
        assert GetRegistered(w, a.flight);
      } else if a.KeepRecord? && ByLookup(w, a.flight, k, id, e) {
        assert LookupRegistered(w, a.flight);
      } else {
        assert CacheRegistered(w, k, id);
      }
    }
  }

  /**
   In every run, a client that holds an inode's record is registered for pushes about that inode, whichever request
   brought the record, unless that registration was refused or a push lost: a later write to the inode finds it among
   those to be told.
   */
  lemma {:induction false} CachedIsRegistered(run: seq<World>, acts: seq<Action>, n: nat)
    requires IsRun(run, acts) && n < |run| && Initial(run[0])
    ensures Registered(run[n])
  {
    hide Step, Initial;
    if n == 0 {
      InitialIsEmpty(run[0]);
    } else {
      var w, a, w' := run[n - 1], acts[n - 1], run[n];
      assert Step(w, a, run[n - 1 + 1]);
      CachedIsRegistered(run, acts, n - 1);
      forall f ensures GetRegistered(w', f) {
        assert GetRegistered(w, f);
        GetRegisteredStep(w, a, w', f);
      }
      forall f ensures LookupRegistered(w', f) {
        assert LookupRegistered(w, f);
        LookupRegisteredStep(w, a, w', f);
      }
      forall k: ClientID, id: InodeID ensures CacheRegistered(w', k, id) {
        CacheRegisteredStep(w, a, w', k, id);
      }
    }
  }

  /** So when a write to the inode is announced, an invalidation is on its way to every client that holds the record. */
  lemma WriteTellsHolders(run: seq<World>, acts: seq<Action>, n: nat, k: ClientID, id: InodeID)
    requires IsRun(run, acts) && n < |acts| && Initial(run[0]) && acts[n].Collect? && acts[n].obj == InoObj(id)
    requires InoObj(id) in ClientOf(run[n], k).cache && Sub(k, InoObj(id)) !in run[n].net.lost
    ensures Coming(run[n + 1].net, Sub(k, InoObj(id)))
  {
    hide Initial, Registered, Owed, Queued;
    assert Step(run[n], acts[n], run[n + 1]);
    CachedIsRegistered(run, acts, n);
    RegisteredAt(run[n], k, id);
    CollectOwes(run[n], acts[n], run[n + 1], Sub(k, InoObj(id)));
  }

  lemma RegisteredAt(w: World, k: ClientID, id: InodeID)
    requires Registered(w)
    ensures CacheRegistered(w, k, id)
  {
  }

  lemma CollectOwes(w: World, a: Action, w': World, s: Sub)
    requires Step(w, a, w') && a.Collect? && a.obj == s.obj && s in w.net.subs
    ensures Coming(w'.net, s)
  {
    OwedBy(w'.net, a.job, s);
  }

  lemma QueueOfNet(w: World, a: Action, w': World, k: ClientID)
    requires Step(w, a, w') && (a.Push? || a.PushRecall? || a.Reconnect? || a.Deliver?) && |QueueOf(w.net, k)| <= 64
    ensures |QueueOf(w'.net, k)| <= 64
  {
    hide Store, StoreName, Invalidate, Binding, Epoch, Register, Gathered, Opened;
  }

  lemma QueueElsewhere(w: World, a: Action, w': World)
    requires Step(w, a, w') && !(a.Push? || a.PushRecall? || a.Reconnect? || a.Deliver?)
    ensures w'.net.queues == w.net.queues
  {
    hide Store, StoreName, Invalidate, Binding, Epoch, Handle, Enqueue, Fired, Cut;
  }

  lemma QueueStep(w: World, a: Action, w': World, k: ClientID)
    requires Step(w, a, w') && |QueueOf(w.net, k)| <= 64
    ensures |QueueOf(w'.net, k)| <= 64
  {
    hide Step;
    if a.Push? || a.PushRecall? || a.Reconnect? || a.Deliver? {
      QueueOfNet(w, a, w', k);
    } else {
      QueueElsewhere(w, a, w');
    }
  }

  /** In every run no more than 64 events wait for a client. */
  lemma {:induction false} QueueBounded(run: seq<World>, acts: seq<Action>, n: nat, k: ClientID)
    requires IsRun(run, acts) && n < |run| && Initial(run[0])
    ensures |QueueOf(run[n].net, k)| <= 64
  {
    if n > 0 {
      QueueBounded(run, acts, n - 1, k);
      assert Step(run[n - 1], acts[n - 1], run[n - 1 + 1]);
      QueueStep(run[n - 1], acts[n - 1], run[n], k);
    }
  }
}
