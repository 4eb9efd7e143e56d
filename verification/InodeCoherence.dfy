/**
 Inode coherence (pkg/mds): when a cached record can differ from the authority's with no invalidation on its way. The
 authority reads a record before it registers the client for pushes about it, and a Lookup's epoch is read only when the
 response is back, so the promise runs from the later of the two.
 */
module InodeCoherence {
  import opened Base
  import opened Namespace
  import opened LeaseCache
  import opened Protocol
  import opened RecallSafety
  import opened ProtocolLimits
  import Histories
  import Invalidation
  import Handlers
  import Deliveries
  import W = Witnesses

  /** The authority holds this record of the inode. */
  ghost predicate Holds(w: World, id: InodeID, rec: InodeRecord) {
    id in w.inode && w.inode[id] == rec
  }

  /** The record is the authority's, or an invalidation of the inode is on its way to the client. */
  ghost predicate InSync(w: World, k: ClientID, id: InodeID, rec: InodeRecord) {
    Holds(w, id, rec) || Coming(w.net, Sub(k, InoObj(id)))
  }

  /** The step changes the inode's record, or removes it. */
  ghost predicate Writes(w: World, a: Action, id: InodeID) {
    a.Mutate? && id in w.inode && (id in a.inode ==> a.inode[id] != w.inode[id])
  }

  ghost predicate Creates(w: World, a: Action, id: InodeID) {
    a.Mutate? && id !in w.inode && id in a.inode
  }

  /** A write of the inode bumps it, as every handler's does but for the two inodes of a rename. */
  ghost predicate Announced(w: World, a: Action, id: InodeID) {
    Writes(w, a, id) ==> InoObj(id) in a.keys
  }

  ghost predicate AllAnnounced(run: seq<World>, acts: seq<Action>, n: nat, id: InodeID)
    requires |run| == |acts| + 1 && n <= |acts|
  {
    forall m :: 0 <= m < n ==> Announced(run[m], acts[m], id)
  }

  /** A mutation bumps the object, or a recall of it is pushed to the client. */
  ghost predicate Mentions(a: Action, s: Sub) {
    (a.Mutate? && s.obj in a.keys) || (a.PushRecall? && a.sub == s)
  }

  /** Nothing about the inode is announced to the client, and it is not created. */
  ghost predicate Silent(run: seq<World>, acts: seq<Action>, i: nat, n: nat, k: ClientID, id: InodeID)
    requires |run| == |acts| + 1 && n <= |acts|
  {
    forall m :: i <= m < n ==> !Mentions(acts[m], Sub(k, InoObj(id))) && !Creates(run[m], acts[m], id)
  }

  ghost predicate Unwritten(run: seq<World>, acts: seq<Action>, i: nat, n: nat, id: InodeID)
    requires |run| == |acts| + 1 && n <= |acts|
  {
    forall m :: i <= m < n ==> !Writes(run[m], acts[m], id)
  }

  // --- what one step does to the inode and to what is coming --------------------------------------

  lemma InodeOfStep(w: World, a: Action, w': World, id: InodeID, rec: InodeRecord)
    requires Step(w, a, w') && !Writes(w, a, id)
    ensures Holds(w, id, rec) ==> Holds(w', id, rec)
    ensures Holds(w', id, rec) ==> Holds(w, id, rec) || Creates(w, a, id)
  {
    hide Store, StoreName, Invalidate, Register, Enqueue, Gathered, Fired, Binding;
  }

  /** The actions that leave the queues and the jobs alone. */
  lemma NetAside(w: World, a: Action, w': World, s: Sub)
    requires Step(w, a, w') && !(a.Mutate? || a.Collect? || a.Push? || a.PushRecall? || a.Reconnect? || a.Deliver?)
    ensures Coming(w'.net, s) <==> Coming(w.net, s)
  {
    hide Coming, Store, StoreName, Invalidate, Binding;
    AsideComing(w, w', s);
  }

  lemma ComingOfPushes(w: World, a: Action, w': World, s: Sub)
    requires Step(w, a, w') && (a.Collect? || a.Push? || a.PushRecall? || a.Reconnect?)
    requires Coming(w.net, s) && s in w.net.subs && s !in w'.net.lost
    ensures Coming(w'.net, s)
  {
    hide Coming, Gathered, Fired, Enqueue, Cut;
    match a
    case Reconnect(k) => CutKeepsComing(w.net, k, s);
    case Collect(job, obj) => GatheredComing(w.net, job, obj, s);
    case Push(job, sub, accepted) => PushComing(w.net, job, sub, accepted, s);
    case PushRecall(sub, recall, accepted) => EnqueueKeepsComing(w.net, sub, Recalled(sub.obj, recall), accepted, s);
  }

  lemma ComingOfDeliver(w: World, a: Action, w': World, s: Sub)
    requires Step(w, a, w') && a.Deliver? && Coming(w.net, s) && !DropsIt(w, a, s.client, s.obj)
    ensures Coming(w'.net, s)
  {
    hide Coming, Taken, Invalidate;
    TakenComing(w.net, a.client, s);
  }

  lemma ComingOfMutate(w: World, a: Action, w': World, s: Sub)
    requires Step(w, a, w') && a.Mutate? && (Coming(w.net, s) || s.obj in a.keys)
    ensures Coming(w'.net, s)
  {
    hide Coming, Opened;
    OpenedComing(w.net, a.job, a.keys, s);
  }

  /** What is coming to a registered client still is, until the client handles it or it is lost. */
  lemma ComingOfStep(w: World, a: Action, w': World, s: Sub)
    requires Step(w, a, w') && Coming(w.net, s) && s in w.net.subs && s !in w'.net.lost && !DropsIt(w, a, s.client, s.obj)
    ensures Coming(w'.net, s)
  {
    hide Step, Coming, DropsIt;
    if a.Mutate? {
      ComingOfMutate(w, a, w', s);
    } else if a.Collect? || a.Push? || a.PushRecall? || a.Reconnect? {
      ComingOfPushes(w, a, w', s);
    } else if a.Deliver? {
      ComingOfDeliver(w, a, w', s);
    } else {
      NetAside(w, a, w', s);
    }
  }

  lemma InSyncStep(w: World, a: Action, w': World, k: ClientID, id: InodeID, rec: InodeRecord)
    requires Step(w, a, w') && Announced(w, a, id) && !DropsIt(w, a, k, InoObj(id))
    requires Sub(k, InoObj(id)) in w.net.subs && Sub(k, InoObj(id)) !in w'.net.lost && InSync(w, k, id, rec)
    ensures InSync(w', k, id, rec)
  {
    hide Step, Coming, DropsIt, Holds;
    var s := Sub(k, InoObj(id));
    if Writes(w, a, id) {
      ComingOfMutate(w, a, w', s);
    } else {
      InodeOfStep(w, a, w', id, rec);
      if Coming(w.net, s) {
        ComingOfStep(w, a, w', s);
      }
    }
  }

  // --- nothing comes of itself ----------------------------------------------------------------------

  lemma UntoldMutate(w: World, a: Action, w': World, s: Sub)
    requires Step(w, a, w') && a.Mutate? && s.obj !in a.keys && Coming(w'.net, s)
    ensures Coming(w.net, s)
  {
    assert QueueOf(w'.net, s.client) == QueueOf(w.net, s.client);
    if Owed(w'.net, s) {
      var j :| j in w'.net.jobs && (s.obj in w'.net.jobs[j].owed || s in w'.net.jobs[j].pushes);
      OwedBy(w.net, j, s);
    }
  }

  lemma UntoldCollect(w: World, a: Action, w': World, s: Sub)
    requires Step(w, a, w') && a.Collect? && Coming(w'.net, s)
    ensures Coming(w.net, s)
  {
    assert QueueOf(w'.net, s.client) == QueueOf(w.net, s.client);
    if Owed(w'.net, s) {
      var j :| j in w'.net.jobs && (s.obj in w'.net.jobs[j].owed || s in w'.net.jobs[j].pushes);
      OwedBy(w.net, if s.obj == a.obj then a.job else j, s);
    }
  }

  lemma UntoldQueue(n: Net, sub: Sub, e: Event, accepted: bool, s: Sub)
    requires Queued(Enqueue(n, sub, e, accepted), s) && e.obj == sub.obj && s != sub
    ensures Queued(n, s)
  {
  }

  lemma UntoldPush(w: World, a: Action, w': World, s: Sub)
    requires Step(w, a, w') && a.Push? && Coming(w'.net, s)
    ensures Coming(w.net, s)
  {
    if s == a.sub {
      OwedBy(w.net, a.job, s);
    } else if Owed(w'.net, s) {
      var j :| j in w'.net.jobs && (s.obj in w'.net.jobs[j].owed || s in w'.net.jobs[j].pushes);
      OwedBy(w.net, j, s);
    } else {
      UntoldQueue(Fired(w.net, a.job, a.sub), a.sub, Invalidated(a.sub.obj), a.accepted, s);
      assert QueueOf(Fired(w.net, a.job, a.sub), s.client) == QueueOf(w.net, s.client);
    }
  }

  lemma UntoldRecall(w: World, a: Action, w': World, s: Sub)
    requires Step(w, a, w') && a.PushRecall? && a.sub != s && Coming(w'.net, s)
    ensures Coming(w.net, s)
  {
    hide Owed, Queued;
    OwedSame(w.net, w'.net, s);
    if Queued(w'.net, s) {
      UntoldQueue(w.net, a.sub, Recalled(a.sub.obj, a.recall), a.accepted, s);
    }
  }

  lemma OwedSame(n: Net, n': Net, s: Sub)
    requires n'.jobs == n.jobs
    ensures Owed(n', s) <==> Owed(n, s)
  {
  }

  lemma UntoldQueueTail(n: Net, k: ClientID, s: Sub)
    requires QueueOf(n, k) != [] && Queued(Taken(n, k), s)
    ensures Queued(n, s)
  {
    var e :| e in QueueOf(Taken(n, k), s.client) && e.obj == s.obj;
    assert e in QueueOf(n, s.client);
  }

  lemma UntoldDeliver(w: World, a: Action, w': World, s: Sub)
    requires Step(w, a, w') && a.Deliver? && Coming(w'.net, s)
    ensures Coming(w.net, s)
  {
    hide Owed, Queued, Invalidate;
    OwedSame(w.net, w'.net, s);
    if Queued(w'.net, s) {
      UntoldQueueTail(w.net, a.client, s);
    }
  }

  lemma OwedComing(n: Net, s: Sub)
    ensures Owed(n, s) ==> Coming(n, s)
  {
  }

  lemma ReconnectCuts(w: World, a: Action, w': World)
    requires Step(w, a, w') && a.Reconnect?
    ensures w'.net == Cut(w.net, a.client)
  {
  }

  /** An invalidation is on its way only because a mutation bumped the object or a recall of it was pushed. */
  lemma UntoldStep(w: World, a: Action, w': World, s: Sub)
    requires Step(w, a, w') && !Mentions(a, s) && Coming(w'.net, s)
    ensures Coming(w.net, s)
  {
    hide Step, Coming;
    if a.Mutate? {
      UntoldMutate(w, a, w', s);
    } else if a.Collect? {
      UntoldCollect(w, a, w', s);
    } else if a.Push? {
      UntoldPush(w, a, w', s);
    } else if a.PushRecall? {
      UntoldRecall(w, a, w', s);
    } else if a.Reconnect? {
      ReconnectCuts(w, a, w');
      CutComing(w.net, a.client, s);
      OwedComing(w.net, s);
    } else if a.Deliver? {
      UntoldDeliver(w, a, w', s);
    } else {
      NetAside(w, a, w', s);
    }
  }

  // --- over a run --------------------------------------------------------------------------------------

  /** A registered client whose record is in sync stays so until it drops the record. */
  lemma {:induction false} InSyncStays(run: seq<World>, acts: seq<Action>, i: nat, n: nat, k: ClientID, id: InodeID, rec: InodeRecord)
    requires IsRun(run, acts) && i <= n < |run| && AllAnnounced(run, acts, n, id) && Undropped(run, acts, i, n, k, InoObj(id))
    requires Sub(k, InoObj(id)) in run[i].net.subs && Sub(k, InoObj(id)) !in run[n].net.lost && InSync(run[i], k, id, rec)
    ensures InSync(run[n], k, id, rec) && Sub(k, InoObj(id)) in run[n].net.subs
    decreases n
  {
    hide Step, InSync, Announced, DropsIt;
    if i < n {
      assert Step(run[n - 1], acts[n - 1], run[n - 1 + 1]);
      SubsGrow(run[n - 1], acts[n - 1], run[n]);
      InSyncStays(run, acts, i, n - 1, k, id, rec);
      InSyncStep(run[n - 1], acts[n - 1], run[n], k, id, rec);
    }
  }

  /** A record that is out of sync stays so for as long as nothing about its inode is announced. */
  lemma {:induction false} OutOfSyncStays(run: seq<World>, acts: seq<Action>, i: nat, n: nat, k: ClientID, id: InodeID, rec: InodeRecord)
    requires IsRun(run, acts) && i <= n < |run| && AllAnnounced(run, acts, n, id) && Silent(run, acts, i, n, k, id)
    requires !InSync(run[i], k, id, rec)
    ensures !InSync(run[n], k, id, rec)
    decreases n
  {
    hide Step, Coming, Holds, Writes, Creates;
    if i < n {
      assert Step(run[n - 1], acts[n - 1], run[n - 1 + 1]);
      OutOfSyncStays(run, acts, i, n - 1, k, id, rec);
      assert !Mentions(acts[n - 1], Sub(k, InoObj(id))) && Announced(run[n - 1], acts[n - 1], id);
      WritesMutate(run[n - 1], acts[n - 1], id);
      InodeOfStep(run[n - 1], acts[n - 1], run[n], id, rec);
      if Coming(run[n].net, Sub(k, InoObj(id))) {
        UntoldStep(run[n - 1], acts[n - 1], run[n], Sub(k, InoObj(id)));
      }
    }
  }

  lemma WritesMutate(w: World, a: Action, id: InodeID)
    ensures Writes(w, a, id) ==> a.Mutate?
  {
  }

  lemma {:induction false} HoldsStays(run: seq<World>, acts: seq<Action>, i: nat, n: nat, id: InodeID, rec: InodeRecord)
    requires IsRun(run, acts) && i <= n < |run| && Unwritten(run, acts, i, n, id) && Holds(run[i], id, rec)
    ensures Holds(run[n], id, rec)
    decreases n
  {
    hide Step, Holds, Writes;
    if i < n {
      assert Step(run[n - 1], acts[n - 1], run[n - 1 + 1]);
      HoldsStays(run, acts, i, n - 1, id, rec);
      InodeOfStep(run[n - 1], acts[n - 1], run[n], id, rec);
    }
  }

  // --- where a response got its registration ---------------------------------------------------------

  /** A granted GetInode was granted before, with the same answer, or is in this step, which registers the client. */
  ghost predicate GrantedFrom(w: World, a: Action, w': World, f: nat)
    requires f in w'.gets
  {
    && f in w.gets && w'.gets[f] == w.gets[f].(granted := true)
    && (w.gets[f].granted || (a.GrantInode? && a.flight == f && Sub(w.gets[f].client, InoObj(w.gets[f].id)) in w'.net.subs + w'.net.lost))
  }

  lemma GrantedOfGet(w: World, a: Action, w': World, f: nat)
    requires Step(w, a, w') && OfGet(a) && f in w'.gets && w'.gets[f].granted && (f in w.gets && w.gets[f].granted ==> w.gets[f].answer.Some?)
    ensures GrantedFrom(w, a, w', f) && w'.gets[f].answer.Some?
  {
  }

  lemma GrantedOfStep(w: World, a: Action, w': World, f: nat)
    requires Step(w, a, w') && f in w'.gets && w'.gets[f].granted && (f in w.gets && w.gets[f].granted ==> w.gets[f].answer.Some?)
    ensures GrantedFrom(w, a, w', f) && w'.gets[f].answer.Some?
  {
    hide Step;
    if OfServer(a) {
      RemoteGets(w, a, w');
    } else if OfKeep(a) {
      KeepStep(w, a, w', 0);
    } else if OfGet(a) {
      GrantedOfGet(w, a, w', f);
    } else {
      DropGets(w, a, w');
    }
  }

  /** The authority read the record at step `r` and registered the client at step `g`. */
  ghost predicate ReadThenGranted(run: seq<World>, acts: seq<Action>, f: nat, k: ClientID, id: InodeID, rec: InodeRecord, r: nat, g: nat)
    requires |run| == |acts| + 1 && g < |acts|
  {
    && r < g && Holds(run[r], id, rec) && (acts[r] == ReadInode(f) || acts[r] == ReadRecord(f))
    && (acts[g].GrantInode? || acts[g].GrantRecord?) && acts[g].flight == f && Deliveries.Asks(run[g], acts[g], Sub(k, InoObj(id)))
    && Sub(k, InoObj(id)) in run[g + 1].net.subs + run[g + 1].net.lost
  }

  lemma {:induction false} GrantedAt(run: seq<World>, acts: seq<Action>, n: nat, f: nat) returns (r: nat, g: nat)
    requires IsRun(run, acts) && n < |run| && Initial(run[0]) && f in run[n].gets && run[n].gets[f].granted
    ensures run[n].gets[f].answer.Some? && g < n && acts[g].GrantInode? && f in run[g].gets && run[n].gets[f] == run[g].gets[f].(granted := true)
    ensures ReadThenGranted(run, acts, f, run[n].gets[f].client, run[n].gets[f].id, run[n].gets[f].answer.value, r, g)
  {
    hide Step, Initial;
    InitialIsEmpty(run[0]);
    g := n - 1;
    assert Step(run[g], acts[g], run[g + 1]);
    if f in run[g].gets && run[g].gets[f].granted {
      r, g := GrantedAt(run, acts, n - 1, f);
      assert Step(run[n - 1], acts[n - 1], run[n - 1 + 1]);
      GrantedOfStep(run[n - 1], acts[n - 1], run[n], f);
    } else {
      GrantedOfStep(run[g], acts[g], run[n], f);
      var q;
      q, r := GetHistory(run, acts, g, f);
    }
  }

  predicate Leased(p: Phase) {
    p.Recorded? || p.Timed?
  }

  ghost predicate LeasedFrom(w: World, a: Action, w': World, f: nat)
    requires f in w'.lookups
  {
    && f in w.lookups && w'.lookups[f].client == w.lookups[f].client && Carried(w'.lookups[f].phase) == Carried(w.lookups[f].phase)
    && if Leased(w.lookups[f].phase) then a == ReadEpoch(f) || w'.lookups[f].phase == w.lookups[f].phase
       else a.GrantRecord? && a.flight == f && w.lookups[f].phase.Fetched?
            && Sub(w.lookups[f].client, InoObj(Carried(w.lookups[f].phase).value.0)) in w'.net.subs + w'.net.lost
  }

  lemma LeasedOfServer(w: World, a: Action, w': World, f: nat)
    requires Step(w, a, w') && OfLookup(a) && f in w'.lookups && Leased(w'.lookups[f].phase)
    ensures LeasedFrom(w, a, w', f)
  {
    hide Binding, Epoch;
  }

  lemma LeasedOfKeep(w: World, a: Action, w': World, f: nat)
    requires Step(w, a, w') && OfKeep(a) && f in w'.lookups && Leased(w'.lookups[f].phase)
    ensures LeasedFrom(w, a, w', f)
  {
    hide Store, StoreName;
  }

  lemma LeasedOfStep(w: World, a: Action, w': World, f: nat)
    requires Step(w, a, w') && f in w'.lookups && Leased(w'.lookups[f].phase)
    ensures LeasedFrom(w, a, w', f)
  {
    hide Step;
    if OfKeep(a) {
      LeasedOfKeep(w, a, w', f);
    } else if OfLookup(a) {
      LeasedOfServer(w, a, w', f);
    } else {
      LookupsElsewhere(w, a, w');
    }
  }

  lemma {:induction false} LeasedAt(run: seq<World>, acts: seq<Action>, n: nat, f: nat) returns (r: nat, g: nat)
    requires IsRun(run, acts) && n < |run| && Initial(run[0]) && f in run[n].lookups && Leased(run[n].lookups[f].phase)
    ensures g < n && acts[g].GrantRecord?
    ensures var (id, rec) := Carried(run[n].lookups[f].phase).value; ReadThenGranted(run, acts, f, run[n].lookups[f].client, id, rec, r, g)
  {
    hide Step, Initial;
    InitialIsEmpty(run[0]);
    g := n - 1;
    assert Step(run[g], acts[g], run[g + 1]);
    LeasedOfStep(run[g], acts[g], run[n], f);
    if Leased(run[g].lookups[f].phase) {
      r, g := LeasedAt(run, acts, n - 1, f);
    } else {
      var q;
      q, r := LookupHistory(run, acts, g, f);
    }
  }

  // --- the theorem ------------------------------------------------------------------------------------

  /**
   The entry of client `k` came with flight `f`: the authority read it at `r` and registered the client at `g`, the
   client stored it at `s`, and from `p` on whatever the client drops counts. For a GetInode `p` is the registration;
   for a Lookup it is the later step at which the client read the epoch, with the response in hand.
   */
  ghost predicate Brought(run: seq<World>, acts: seq<Action>, f: nat, k: ClientID, id: InodeID, rec: InodeRecord, r: nat, g: nat, p: nat, s: nat)
    requires |run| == |acts| + 1 && s < |acts|
  {
    && g < s && p < s && ReadThenGranted(run, acts, f, k, id, rec, r, g) && Undropped(run, acts, p, s, k, InoObj(id))
    && ((acts[g].GrantInode? && p == g && acts[s] == KeepInode(f)) || (acts[g].GrantRecord? && g < p && acts[p] == ReadEpoch(f) && acts[s] == KeepRecord(f)))
  }

  lemma GetBrought(run: seq<World>, acts: seq<Action>, s: nat, k: ClientID, id: InodeID, e: Entry) returns (r: nat, g: nat)
    requires IsRun(run, acts) && s < |acts| && Initial(run[0]) && acts[s].KeepInode? && ByGet(run[s], acts[s].flight, k, id, e)
    ensures Brought(run, acts, acts[s].flight, k, id, e.record, r, g, g, s)
  {
    hide Initial, Step, Epoch, ReadThenGranted, DropsIt;
    var f := acts[s].flight;
    r, g := GrantedAt(run, acts, s, f);
    var q := AskedAt(run, acts, g, f);
    EpochsBetween(run, acts, q, s, k, InoObj(id));
  }

  lemma LookupBrought(run: seq<World>, acts: seq<Action>, s: nat, k: ClientID, id: InodeID, e: Entry) returns (r: nat, g: nat, p: nat)
    requires IsRun(run, acts) && s < |acts| && Initial(run[0]) && acts[s].KeepRecord? && ByLookup(run[s], acts[s].flight, k, id, e)
    ensures Brought(run, acts, acts[s].flight, k, id, e.record, r, g, p, s)
  {
    hide Initial, Step, Epoch, ReadThenGranted, DropsIt;
    var f := acts[s].flight;
    p := TimedAt(run, acts, s, f);
    r, g := LeasedAt(run, acts, p, f);
    EpochsBetween(run, acts, p, s, k, InoObj(id));
  }

  /** Every cached record was brought by one request, and has not been dropped since. */
  lemma {:induction false} CachedBrought(run: seq<World>, acts: seq<Action>, n: nat, k: ClientID, id: InodeID)
    returns (f: nat, r: nat, g: nat, p: nat, s: nat)
    requires IsRun(run, acts) && n < |run| && Initial(run[0]) && InoObj(id) in ClientOf(run[n], k).cache
    ensures s < n && Brought(run, acts, f, k, id, ClientOf(run[n], k).cache[InoObj(id)].record, r, g, p, s)
    ensures Undropped(run, acts, p, n, k, InoObj(id))
  {
    hide Step, Initial, ByGet, ByLookup, ReadThenGranted, DropsIt;
    InitialIsEmpty(run[0]);
    s := n - 1;
    var e := ClientOf(run[n], k).cache[InoObj(id)];
    assert Step(run[s], acts[s], run[s + 1]);
    CacheOfStep(run[s], acts[s], run[n], k, id);
    if acts[s].KeepInode? && ByGet(run[s], acts[s].flight, k, id, e) {
      f := acts[s].flight;
      r, g := GetBrought(run, acts, s, k, id, e);
      p := g;
    } else if acts[s].KeepRecord? && ByLookup(run[s], acts[s].flight, k, id, e) {
      f := acts[s].flight;
      r, g, p := LookupBrought(run, acts, s, k, id, e);
    } else {
      f, r, g, p, s := CachedBrought(run, acts, n - 1, k, id);
    }
    KeepsNothing(run[s], acts[s], k, InoObj(id));
  }

  lemma KeepsNothing(w: World, a: Action, k: ClientID, obj: Obj)
    ensures a.KeepInode? || a.KeepRecord? ==> !DropsIt(w, a, k, obj)
  {
  }

  lemma {:induction false} SubsBetween(run: seq<World>, acts: seq<Action>, i: nat, n: nat)
    requires IsRun(run, acts) && i <= n < |run|
    ensures run[i].net.subs <= run[n].net.subs && run[i].net.lost <= run[n].net.lost
    decreases n
  {
    hide Step;
    if i < n {
      assert Step(run[n - 1], acts[n - 1], run[n - 1 + 1]);
      SubsGrow(run[n - 1], acts[n - 1], run[n]);
      SubsBetween(run, acts, i, n - 1);
    }
  }

  /** The registration itself neither changes the record nor announces anything. */
  lemma InSyncPast(w: World, a: Action, w': World, k: ClientID, id: InodeID, rec: InodeRecord)
    requires Step(w, a, w') && (a.GrantInode? || a.GrantRecord?)
    ensures InSync(w', k, id, rec) <==> InSync(w, k, id, rec)
  {
    hide Step, Coming, Holds;
    assert !Writes(w, a, id) && !Creates(w, a, id);
    InodeOfStep(w, a, w', id, rec);
    NetAside(w, a, w', Sub(k, InoObj(id)));
  }

  /** From the registration at `g` on, in sync at any step up to the next drop means in sync later. */
  lemma InSyncSince(run: seq<World>, acts: seq<Action>, g: nat, i: nat, n: nat, k: ClientID, id: InodeID, rec: InodeRecord)
    requires IsRun(run, acts) && g <= i <= n < |run| && g < |acts| && (acts[g].GrantInode? || acts[g].GrantRecord?)
    requires AllAnnounced(run, acts, n, id) && Undropped(run, acts, i, n, k, InoObj(id))
    requires Sub(k, InoObj(id)) in run[g + 1].net.subs && Sub(k, InoObj(id)) !in run[n].net.lost && InSync(run[i], k, id, rec)
    ensures InSync(run[n], k, id, rec)
  {
    hide Step, InSync, DropsIt, Announced;
    if i < n {
      assert Step(run[g], acts[g], run[g + 1]);
      InSyncPast(run[g], acts[g], run[g + 1], k, id, rec);
      var from := if i == g then g + 1 else i;
      SubsBetween(run, acts, g + 1, from);
      InSyncStays(run, acts, from, n, k, id, rec);
    }
  }

  /**
   Inode coherence, over every run in which each write of the inode bumps it and no push about it to this client was
   dropped or its registration refused. A cached record came with one flight, and the promise starts at its step `p`: if
   the record was then the authority's, or an invalidation of it on its way to the client, it is so ever after. It was,
   if nothing wrote the inode between the read and the registration and the client dropped nothing of it between the
   registration and `p`. And for as long as nothing more is announced, the promise holds exactly if it held at `p`.
   */
  lemma RecordCoherence(run: seq<World>, acts: seq<Action>, n: nat, k: ClientID, id: InodeID)
    returns (f: nat, r: nat, g: nat, p: nat, s: nat)
    requires IsRun(run, acts) && n < |run| && Initial(run[0]) && InoObj(id) in ClientOf(run[n], k).cache
    requires Sub(k, InoObj(id)) !in run[n].net.lost && AllAnnounced(run, acts, n, id)
    ensures var rec := ClientOf(run[n], k).cache[InoObj(id)].record;
            && s < n && Brought(run, acts, f, k, id, rec, r, g, p, s)
            && (InSync(run[p], k, id, rec) ==> InSync(run[n], k, id, rec))
            && (Unwritten(run, acts, r, g, id) && Undropped(run, acts, g, p, k, InoObj(id)) ==> InSync(run[p], k, id, rec))
            && (Silent(run, acts, p, n, k, id) ==> (InSync(run[n], k, id, rec) <==> InSync(run[p], k, id, rec)))
  {
    hide Step, Initial, InSync, DropsIt, Announced, Writes, Mentions, Creates, Holds;
    f, r, g, p, s := CachedBrought(run, acts, n, k, id);
    var rec := ClientOf(run[n], k).cache[InoObj(id)].record;
    SubsBetween(run, acts, g + 1, n);
    SubsBetween(run, acts, p, n);
    if InSync(run[p], k, id, rec) {
      InSyncSince(run, acts, g, p, n, k, id, rec);
    } else if Silent(run, acts, p, n, k, id) {
      OutOfSyncStays(run, acts, p, n, k, id, rec);
    }
    if Unwritten(run, acts, r, g, id) && Undropped(run, acts, g, p, k, InoObj(id)) {
      HoldsStays(run, acts, r, g, id, rec);
      HoldsInSync(run[g], k, id, rec);
      InSyncSince(run, acts, g, g, p, k, id, rec);
    }
  }

  lemma HoldsInSync(w: World, k: ClientID, id: InodeID, rec: InodeRecord)
    requires Holds(w, id, rec)
    ensures InSync(w, k, id, rec)
  {
  }

  /** A handler's write of an inode is announced exactly if the inode is not one of those it leaves untold. */
  lemma HandlerAnnounces(seen: NS, s: NS, op: Histories.Op, w: World, job: nat, id: InodeID)
    requires Invalidation.Mutable(op) && Histories.Inv(s) && Histories.Run(s, op).Ok? && w.inode == s.inode
    ensures var s' := Histories.Run(s, op).value;
            Announced(w, Mutate(job, HandlerKeys(seen, s', op), s'.dentry, s'.inode), id)
            <==> (Invalidation.Changed(s, s', id) ==> !Untold(seen, s, op, id))
  {
    hide Histories.Inv, HandlerKeys, Histories.Run, Untold;
    var s' := Histories.Run(s, op).value;
    if Invalidation.Changed(s, s', id) {
      HandlerTells(seen, s, op, id);
    }
  }

  // --- a run that shows the window ---------------------------------------------------------------------

  /** One client without a copy of one file, whose GetInode of it is on its way. */
  function Fetching(ttl: Time, rec: InodeRecord, subs: set<Sub>, jobs: map<nat, Job>, answer: Option<InodeRecord>, granted: bool): World {
    World(0, ttl, map[], map[2 := rec], Net(subs, map[], jobs, {}), map[], map[], map[0 := GetFlight(0, 2, 0, answer, granted)], 1, {}, {})
  }

  lemma FetchSteps(ttl: Time, rec: InodeRecord, start: World)
    requires start == Fresh(ttl, map[], map[2 := rec])
    ensures Step(start, AskInode(0, 2), Fetching(ttl, rec, {}, map[], None, false))
    ensures Step(Fetching(ttl, rec, {}, map[], None, false), ReadInode(0), Fetching(ttl, rec, {}, map[], Some(rec), false))
  {
  }

  lemma WindowSteps(ttl: Time, before: InodeRecord, after: InodeRecord)
    ensures Step(Fetching(ttl, before, {}, map[], Some(before), false), Mutate(0, {FILE}, map[], map[2 := after]),
                 Fetching(ttl, after, {}, map[0 := Job({FILE}, {})], Some(before), false))
    ensures Step(Fetching(ttl, after, {}, map[0 := Job({FILE}, {})], Some(before), false), Collect(0, FILE),
                 Fetching(ttl, after, {}, map[0 := Job({}, {})], Some(before), false))
  {
    var n := Net({}, map[], map[0 := Job({FILE}, {})], {});
    assert n.jobs[0].owed - {FILE} == {} && n.jobs[0].pushes + (set s | s in n.subs && s.obj == FILE) == {};
    assert n.jobs[0 := Job({}, {})] == map[0 := Job({}, {})];
  }

  function Late(ttl: Time, before: InodeRecord, after: InodeRecord): World {
    World(0, ttl, map[], map[2 := after], Net({FILE_SUB}, map[], map[0 := Job({}, {})], {}),
          map[0 := Store(EMPTY, FILE, before, Lease(0, ttl), 0, 0)], map[], map[], 1, {}, {})
  }

  lemma LateSteps(ttl: Time, before: InodeRecord, after: InodeRecord)
    ensures var w := Fetching(ttl, after, {FILE_SUB}, map[0 := Job({}, {})], Some(before), true);
            && Step(Fetching(ttl, after, {}, map[0 := Job({}, {})], Some(before), false), GrantInode(0, true), w)
            && Step(w, KeepInode(0), Late(ttl, before, after))
  {
  }

  /**
   The window between the read and the registration: a write that is announced in it finds nobody to tell, so the
   client stores and answers the old record although no push was lost, and nothing is on its way to correct it.
   */
  lemma ReadBeforeGrantStale(ttl: Time, before: InodeRecord, after: InodeRecord) returns (start: World, acts: seq<Action>, w: World)
    requires ttl > 0 && before != after
    ensures Initial(start) && Reached(start, acts, w) && w.inode == map[2 := after] && w.net.lost == {}
    ensures CachedInode(ClientOf(w, 0), 2, w.now) == Some(before) && !InSync(w, 0, 2, before)
  {
    hide Step, Reached;
    start := Fresh(ttl, map[], map[2 := before]);
    ReachStart(start);
    FetchSteps(ttl, before, start);
    var read := Fetching(ttl, before, {}, map[], Some(before), false);
    acts := ReachTwo(start, [], start, AskInode(0, 2), Fetching(ttl, before, {}, map[], None, false), ReadInode(0), read);
    WindowSteps(ttl, before, after);
    var told := Fetching(ttl, after, {}, map[0 := Job({}, {})], Some(before), false);
    acts := ReachTwo(start, acts, read, Mutate(0, {FILE}, map[], map[2 := after]),
                     Fetching(ttl, after, {}, map[0 := Job({FILE}, {})], Some(before), false), Collect(0, FILE), told);
    LateSteps(ttl, before, after);
    w := Late(ttl, before, after);
    acts := ReachTwo(start, acts, told, GrantInode(0, true), Fetching(ttl, after, {FILE_SUB}, map[0 := Job({}, {})], Some(before), true),
                     KeepInode(0), w);
  }

  // --- runs in which a handler tells nobody ----------------------------------------------------------------

  function Fresh(ttl: Time, dentry: Dentries, inode: map<InodeID, InodeRecord>): World {
    World(0, ttl, dentry, inode, Net({}, map[], map[], {}), map[], map[], map[], 0, {}, {})
  }

  function Getting(ttl: Time, dentry: Dentries, inode: map<InodeID, InodeRecord>, g: GetFlight, subs: set<Sub>): World {
    Fresh(ttl, dentry, inode).(net := Net(subs, map[], map[], {}), gets := map[0 := g], issued := 1)
  }

  /** Client 0 holds a record of the inode, leased at time 0, and is registered for it. */
  function Holding(ttl: Time, dentry: Dentries, inode: map<InodeID, InodeRecord>, id: InodeID, rec: InodeRecord, jobs: map<nat, Job>): World {
    Fresh(ttl, dentry, inode).(net := Net({Sub(0, InoObj(id))}, map[], jobs, {}), issued := 1,
                               clients := map[0 := Store(EMPTY, InoObj(id), rec, Lease(0, ttl), 0, 0)])
  }

  lemma GettingSteps(ttl: Time, dentry: Dentries, inode: map<InodeID, InodeRecord>, id: InodeID)
    requires id in inode
    ensures var g, sub := GetFlight(0, id, 0, None, false), Sub(0, InoObj(id)); var g1 := g.(answer := Some(inode[id]));
            && Step(Fresh(ttl, dentry, inode), AskInode(0, id), Getting(ttl, dentry, inode, g, {}))
            && Step(Getting(ttl, dentry, inode, g, {}), ReadInode(0), Getting(ttl, dentry, inode, g1, {}))
            && Step(Getting(ttl, dentry, inode, g1, {}), GrantInode(0, true), Getting(ttl, dentry, inode, g1.(granted := true), {sub}))
  {
  }

  lemma KeepingStep(ttl: Time, dentry: Dentries, inode: map<InodeID, InodeRecord>, id: InodeID, rec: InodeRecord)
    ensures Step(Getting(ttl, dentry, inode, GetFlight(0, id, 0, Some(rec), true), {Sub(0, InoObj(id))}), KeepInode(0),
                 Holding(ttl, dentry, inode, id, rec, map[]))
  {
  }

  /** A client fetches a record that is there. */
  lemma Fetches(ttl: Time, dentry: Dentries, inode: map<InodeID, InodeRecord>, id: InodeID) returns (acts: seq<Action>)
    requires id in inode
    ensures Reached(Fresh(ttl, dentry, inode), acts, Holding(ttl, dentry, inode, id, inode[id], map[]))
  {
    hide Step, Reached;
    var start, g := Fresh(ttl, dentry, inode), GetFlight(0, id, 0, None, false);
    var g1 := g.(answer := Some(inode[id]));
    ReachStart(start);
    GettingSteps(ttl, dentry, inode, id);
    acts := ReachTwo(start, [], start, AskInode(0, id), Getting(ttl, dentry, inode, g, {}), ReadInode(0), Getting(ttl, dentry, inode, g1, {}));
    KeepingStep(ttl, dentry, inode, id, inode[id]);
    acts := ReachTwo(start, acts, Getting(ttl, dentry, inode, g1, {}), GrantInode(0, true),
                     Getting(ttl, dentry, inode, g1.(granted := true), {Sub(0, InoObj(id))}), KeepInode(0),
                     Holding(ttl, dentry, inode, id, inode[id], map[]));
  }

  lemma HoldingStale(ttl: Time, dentry: Dentries, inode: map<InodeID, InodeRecord>, id: InodeID, rec: InodeRecord, keys: set<Obj>)
    requires ttl > 0 && InoObj(id) !in keys && (id in inode ==> inode[id] != rec)
    ensures var w := Holding(ttl, dentry, inode, id, rec, map[0 := Job(keys, {})]);
            CachedInode(ClientOf(w, 0), id, w.now) == Some(rec) && !InSync(w, 0, id, rec)
  {
  }

  /**
   For every state of the store, every handler and every inode whose record it changes untold there is a run with no push
   lost in which a client fetches that record, the handler does its work, and the client answers the old record with
   nothing on its way.
   */
  lemma UntoldLeavesStale(ttl: Time, seen: NS, s: NS, op: Histories.Op, id: InodeID) returns (acts: seq<Action>, w: World)
    requires ttl > 0 && Invalidation.Mutable(op) && Histories.Inv(s) && Histories.Run(s, op).Ok?
    requires Invalidation.Changed(s, Histories.Run(s, op).value, id) && Untold(seen, s, op, id)
    ensures var s' := Histories.Run(s, op).value;
            && Initial(Fresh(ttl, s.dentry, s.inode)) && Reached(Fresh(ttl, s.dentry, s.inode), acts, w)
            && acts != [] && acts[|acts| - 1] == Mutate(0, HandlerKeys(seen, s', op), s'.dentry, s'.inode)
            && w.dentry == s'.dentry && w.inode == s'.inode && w.net.lost == {}
            && CachedInode(ClientOf(w, 0), id, w.now) == Some(s.inode[id]) && !InSync(w, 0, id, s.inode[id])
  {
    hide Reached, Histories.Inv, Histories.Run, HandlerKeys, Untold, InSync;
    var s' := Histories.Run(s, op).value;
    var keys := HandlerKeys(seen, s', op);
    HandlerTells(seen, s, op, id);
    HandlerCovers(seen, s, op);
    acts := Fetches(ttl, s.dentry, s.inode, id);
    w := Holding(ttl, s'.dentry, s'.inode, id, s.inode[id], map[0 := Job(keys, {})]);
    ReachNext(Fresh(ttl, s.dentry, s.inode), acts, Holding(ttl, s.dentry, s.inode, id, s.inode[id], map[]),
              Mutate(0, keys, s'.dentry, s'.inode), w);
    acts := acts + [Mutate(0, keys, s'.dentry, s'.inode)];
    HoldingStale(ttl, s'.dentry, s'.inode, id, s.inode[id], keys);
  }

  /** Such states are reached: one directory renamed over another, both held. */
  lemma RenameLeavesStale(ttl: Time, id: InodeID) returns (acts: seq<Action>, w: World)
    requires ttl > 0 && (id == W.TWINS.dentry[W.A] || id == W.TWINS.dentry[W.B])
    ensures W.Reachable(W.TWINS) && Reached(Fresh(ttl, W.TWINS.dentry, W.TWINS.inode), acts, w) && w.net.lost == {}
    ensures Namespace.Rename(W.TWINS, ROOT, "a", ROOT, "b", 1).Ok? && w.inode == Namespace.Rename(W.TWINS, ROOT, "a", ROOT, "b", 1).value.inode
    ensures id in W.TWINS.inode && CachedInode(ClientOf(w, 0), id, w.now) == Some(W.TWINS.inode[id]) && !InSync(w, 0, id, W.TWINS.inode[id])
  {
    hide Reached, Histories.Inv, InSync, W.Reachable, HandlerKeys;
    W.TwinsReachable();
    W.ReachableInv(W.TWINS);
    var op := Histories.OpRename(ROOT, "a", ROOT, "b", 1);
    RenameUntold(W.TWINS, W.TWINS, op);
    acts, w := UntoldLeavesStale(ttl, W.TWINS, W.TWINS, op, id);
  }

  /** And one name passing to another file between the lookup and the removal of an Unlink. */
  lemma UnlinkLeavesStale(ttl: Time) returns (acts: seq<Action>, w: World)
    requires ttl > 0
    ensures W.Reachable(W.REUSED) && Namespace.RemoveEntry(W.NAMED, ROOT, "a", 0) == Ok(W.UNLINKED)
    ensures Namespace.CommitFile(W.UNLINKED, ROOT, "a", W.FILE, 0) == Ok(W.REUSED)
    ensures Reached(Fresh(ttl, W.REUSED.dentry, W.REUSED.inode), acts, w) && w.net.lost == {}
    ensures Handlers.Unlink(W.NAMED, W.REUSED, ROOT, "a", 0).Ok? && w.inode == Handlers.Unlink(W.NAMED, W.REUSED, ROOT, "a", 0).value.inode
    ensures CachedInode(ClientOf(w, 0), 3, w.now) == Some(W.FILE) && !InSync(w, 0, 3, W.FILE)
  {
    hide Reached, Histories.Inv, InSync, W.Reachable, HandlerKeys;
    Handlers.UnlinkTakesOther();
    W.ReachableInv(W.REUSED);
    acts, w := UntoldLeavesStale(ttl, W.NAMED, W.REUSED, Histories.OpRemove(ROOT, "a", 0), 3);
  }
}
