/** How old an answered binding can be: what a directory lease bounds in every run, and a run that shows what it does not. */
module LeaseAge {
  import opened Base
  import opened Namespace
  import opened LeaseCache
  import opened Protocol
  import opened RecallSafety
  import opened ProtocolLimits

  // --- time --------------------------------------------------------------------------------------

  lemma ClockOfStep(w: World, a: Action, w': World)
    requires Step(w, a, w')
    ensures w.now <= w'.now && w'.ttl == w.ttl
  {
    hide Enqueue, Register, Gathered, Opened, Store, StoreName, Invalidate, Taken;
  }

  lemma {:induction false} ClockOfRun(run: seq<World>, acts: seq<Action>, i: nat, n: nat)
    requires IsRun(run, acts) && i <= n < |run|
    ensures run[i].now <= run[n].now && run[n].ttl == run[i].ttl
    decreases n
  {
    hide Step;
    if i < n {
      ClockOfRun(run, acts, i, n - 1);
      assert Step(run[n - 1], acts[n - 1], run[n - 1 + 1]);
      ClockOfStep(run[n - 1], acts[n - 1], run[n]);
    }
  }

  // --- where a directory's lease comes from ---------------------------------------------------------

  /** The response of a Lookup in this directory renews the directory's lease. */
  ghost predicate Renews(w: World, a: Action, k: ClientID, dir: InodeID) {
    && a.KeepLease? && a.flight in w.lookups && w.lookups[a.flight].client == k && w.lookups[a.flight].dir == dir
    && Welcome(w, w.lookups[a.flight])
  }

  ghost predicate LeaseFrom(w: World, a: Action, k: ClientID, dir: InodeID, e: Entry) {
    if Renews(w, a, k, dir) then e == Filled(w, DIR_STUB)
    else DirObj(dir) in ClientOf(w, k).cache && ClientOf(w, k).cache[DirObj(dir)] == e
  }

  lemma KeepsLease(w: World, a: Action, w': World, k: ClientID, dir: InodeID)
    requires Step(w, a, w') && a.KeepLease? && DirObj(dir) in ClientOf(w', k).cache
    ensures LeaseFrom(w, a, k, dir, ClientOf(w', k).cache[DirObj(dir)])
  {
    hide StoreName, Enqueue, Register, Invalidate, Binding;
  }

  lemma KeepsOtherLease(w: World, a: Action, w': World, k: ClientID, dir: InodeID)
    requires Step(w, a, w') && (a.KeepRecord? || a.KeepName? || a.KeepInode?) && DirObj(dir) in ClientOf(w', k).cache
    ensures LeaseFrom(w, a, k, dir, ClientOf(w', k).cache[DirObj(dir)])
  {
    hide Enqueue, Register, Invalidate, Binding, Names, Absent, Welcome;
  }

  lemma DeliverLease(w: World, a: Action, w': World, k: ClientID, dir: InodeID)
    requires Step(w, a, w') && a.Deliver? && DirObj(dir) in ClientOf(w', k).cache
    ensures LeaseFrom(w, a, k, dir, ClientOf(w', k).cache[DirObj(dir)])
  {
    hide Invalidate, Epoch, Enqueue, Register, Store, StoreName, Welcome;
    if k == a.client {
      InvalidatedCache(ClientOf(w, k), QueueOf(w.net, k)[0].obj, DirObj(dir));
    }
  }

  lemma OwnDropLease(w: World, a: Action, w': World, k: ClientID, dir: InodeID)
    requires Step(w, a, w') && a.DropOwn? && DirObj(dir) in ClientOf(w', k).cache
    ensures LeaseFrom(w, a, k, dir, ClientOf(w', k).cache[DirObj(dir)])
  {
    hide Invalidate, Epoch, Enqueue, Register, Store, StoreName, Welcome;
    if k == a.client {
      InvalidatedCache(ClientOf(w, k), a.obj, DirObj(dir));
    }
  }

  lemma LeaseOfStep(w: World, a: Action, w': World, k: ClientID, dir: InodeID)
    requires Step(w, a, w') && DirObj(dir) in ClientOf(w', k).cache
    ensures LeaseFrom(w, a, k, dir, ClientOf(w', k).cache[DirObj(dir)])
  {
    hide Step;
    if OfServer(a) {
      RemoteClients(w, a, w');
    } else if a.AskInode? || a.ReadInode? || a.GrantInode? {
      AskClients(w, a, w');
    } else if a.KeepLease? {
      KeepsLease(w, a, w', k, dir);
    } else if OfKeep(a) || a.KeepInode? {
      KeepsOtherLease(w, a, w', k, dir);
    } else if a.Deliver? {
      DeliverLease(w, a, w', k, dir);
    } else {
      OwnDropLease(w, a, w', k, dir);
    }
  }

  ghost predicate Unrenewed(run: seq<World>, acts: seq<Action>, i: nat, n: nat, k: ClientID, dir: InodeID)
    requires |run| == |acts| + 1 && n < |run|
  {
    forall m :: i < m < n ==> !Renews(run[m], acts[m], k, dir)
  }

  /** The lease in force is the one the last renewal left. */
  lemma {:induction false} LeaseAt(run: seq<World>, acts: seq<Action>, n: nat, k: ClientID, dir: InodeID) returns (l: nat)
    requires IsRun(run, acts) && n < |run| && Initial(run[0]) && DirObj(dir) in ClientOf(run[n], k).cache
    ensures l < n && Renews(run[l], acts[l], k, dir) && Unrenewed(run, acts, l, n, k, dir)
    ensures ClientOf(run[n], k).cache[DirObj(dir)] == Filled(run[l], DIR_STUB)
  {
    hide Step, Initial, Renews;
    InitialIsEmpty(run[0]);
    l := n - 1;
    assert Step(run[l], acts[l], run[l + 1]);
    LeaseOfStep(run[l], acts[l], run[n], k, dir);
    if !Renews(run[l], acts[l], k, dir) {
      l := LeaseAt(run, acts, n - 1, k, dir);
    }
  }

  // --- where a binding comes from -----------------------------------------------------------------

  /** The response of a Lookup of this name is stored. */
  ghost predicate Binds(w: World, a: Action, k: ClientID, dir: InodeID, name: string, ino: InodeID) {
    && a.KeepName? && a.flight in w.lookups && Welcome(w, w.lookups[a.flight])
    && var l := w.lookups[a.flight];
       l.client == k && l.dir == dir && l.name == name && l.phase == Kept(Some(ino))
  }

  ghost predicate NameFrom(w: World, a: Action, k: ClientID, dir: InodeID, name: string, ino: InodeID) {
    || (name in Names(ClientOf(w, k), DirObj(dir)) && Names(ClientOf(w, k), DirObj(dir))[name] == ino)
    || Binds(w, a, k, dir, name, ino)
  }

  lemma KeepsName(w: World, a: Action, w': World, k: ClientID, dir: InodeID, name: string)
    requires Step(w, a, w') && a.KeepName? && name in Names(ClientOf(w', k), DirObj(dir))
    ensures NameFrom(w, a, k, dir, name, Names(ClientOf(w', k), DirObj(dir))[name])
  {
    hide Store, Enqueue, Register, Invalidate;
  }

  lemma StoreNames(c: Client, obj: Obj, rec: InodeRecord, l: Lease, since: nat, now: Time, x: Obj)
    ensures Names(Store(c, obj, rec, l, since, now), x) == Names(c, x)
  {
  }

  lemma KeepsOther(w: World, a: Action, w': World, k: ClientID, dir: InodeID)
    requires Step(w, a, w') && (a.KeepRecord? || a.KeepLease? || a.KeepInode?)
    ensures Names(ClientOf(w', k), DirObj(dir)) == Names(ClientOf(w, k), DirObj(dir))
  {
    hide Store, StoreName, Names, Enqueue, Register, Invalidate;
    if a.KeepInode? {
      var g := w.gets[a.flight];
      StoreNames(ClientOf(w, g.client), InoObj(g.id), g.answer.value, LeaseOf(w), g.since, w.now, DirObj(dir));
    } else {
      var l := w.lookups[a.flight];
      if a.KeepRecord? {
        StoreNames(ClientOf(w, l.client), InoObj(l.phase.id), l.phase.rec, LeaseOf(w), l.phase.epoch, w.now, DirObj(dir));
      } else {
        StoreNames(ClientOf(w, l.client), DirObj(l.dir), DIR_STUB, LeaseOf(w), l.since, w.now, DirObj(dir));
      }
    }
  }

  lemma InvalidatedNames(c: Client, obj: Obj, x: Obj, name: string)
    requires name in Names(Invalidate(c, obj), x)
    ensures name in Names(c, x) && Names(Invalidate(c, obj), x)[name] == Names(c, x)[name]
  {
  }

  lemma DropsName(w: World, a: Action, w': World, k: ClientID, dir: InodeID, name: string)
    requires Step(w, a, w') && (a.Deliver? || a.DropOwn?) && name in Names(ClientOf(w', k), DirObj(dir))
    ensures NameFrom(w, a, k, dir, name, Names(ClientOf(w', k), DirObj(dir))[name])
  {
    hide Invalidate, Epoch, Names;
    if k == a.client {
      InvalidatedNames(ClientOf(w, k), if a.Deliver? then QueueOf(w.net, k)[0].obj else a.obj, DirObj(dir), name);
    }
  }

  lemma NameOfStep(w: World, a: Action, w': World, k: ClientID, dir: InodeID, name: string)
    requires Step(w, a, w') && name in Names(ClientOf(w', k), DirObj(dir))
    ensures NameFrom(w, a, k, dir, name, Names(ClientOf(w', k), DirObj(dir))[name])
  {
    hide Step;
    if OfServer(a) {
      RemoteClients(w, a, w');
    } else if a.AskInode? || a.ReadInode? || a.GrantInode? {
      AskClients(w, a, w');
    } else if a.KeepName? {
      KeepsName(w, a, w', k, dir, name);
    } else if OfKeep(a) || a.KeepInode? {
      KeepsOther(w, a, w', k, dir);
    } else {
      DropsName(w, a, w', k, dir, name);
    }
  }

  lemma {:induction false} NameAt(run: seq<World>, acts: seq<Action>, n: nat, k: ClientID, dir: InodeID, name: string) returns (s: nat)
    requires IsRun(run, acts) && n < |run| && Initial(run[0]) && name in Names(ClientOf(run[n], k), DirObj(dir))
    ensures s < n && Binds(run[s], acts[s], k, dir, name, Names(ClientOf(run[n], k), DirObj(dir))[name])
  {
    hide Step, Initial, Binds;
    InitialIsEmpty(run[0]);
    s := n - 1;
    assert Step(run[s], acts[s], run[s + 1]);
    NameOfStep(run[s], acts[s], run[n], k, dir, name);
    if !Binds(run[s], acts[s], k, dir, name, Names(ClientOf(run[n], k), DirObj(dir))[name]) {
      s := NameAt(run, acts, n - 1, k, dir, name);
    }
  }

  // --- where a miss comes from --------------------------------------------------------------------

  /** The response of a Lookup that found nothing under this name is stored. */
  ghost predicate Misses(w: World, a: Action, k: ClientID, dir: InodeID, name: string) {
    && a.KeepName? && a.flight in w.lookups && Welcome(w, w.lookups[a.flight])
    && var l := w.lookups[a.flight];
       l.client == k && l.dir == dir && l.name == name && l.phase == Kept(None)
  }

  lemma KeepsMiss(w: World, a: Action, w': World, k: ClientID, dir: InodeID, name: string)
    requires Step(w, a, w') && a.KeepName? && name in Absent(ClientOf(w', k), DirObj(dir))
    ensures name in Absent(ClientOf(w, k), DirObj(dir)) || Misses(w, a, k, dir, name)
  {
    hide Store, Enqueue, Register, Invalidate;
  }

  lemma StoreAbsent(c: Client, obj: Obj, rec: InodeRecord, l: Lease, since: nat, now: Time, x: Obj)
    ensures Absent(Store(c, obj, rec, l, since, now), x) == Absent(c, x)
  {
  }

  lemma KeepsOtherMiss(w: World, a: Action, w': World, k: ClientID, dir: InodeID)
    requires Step(w, a, w') && (a.KeepRecord? || a.KeepLease? || a.KeepInode?)
    ensures Absent(ClientOf(w', k), DirObj(dir)) == Absent(ClientOf(w, k), DirObj(dir))
  {
    hide Store, StoreName, Absent, Enqueue, Register, Invalidate;
    if a.KeepInode? {
      var g := w.gets[a.flight];
      StoreAbsent(ClientOf(w, g.client), InoObj(g.id), g.answer.value, LeaseOf(w), g.since, w.now, DirObj(dir));
    } else {
      var l := w.lookups[a.flight];
      if a.KeepRecord? {
        StoreAbsent(ClientOf(w, l.client), InoObj(l.phase.id), l.phase.rec, LeaseOf(w), l.phase.epoch, w.now, DirObj(dir));
      } else {
        StoreAbsent(ClientOf(w, l.client), DirObj(l.dir), DIR_STUB, LeaseOf(w), l.since, w.now, DirObj(dir));
      }
    }
  }

  lemma InvalidatedAbsent(c: Client, obj: Obj, x: Obj)
    ensures Absent(Invalidate(c, obj), x) <= Absent(c, x)
  {
  }

  lemma DropsMiss(w: World, a: Action, w': World, k: ClientID, dir: InodeID)
    requires Step(w, a, w') && (a.Deliver? || a.DropOwn?)
    ensures Absent(ClientOf(w', k), DirObj(dir)) <= Absent(ClientOf(w, k), DirObj(dir))
  {
    hide Invalidate, Epoch, Absent;
    if k == a.client {
      InvalidatedAbsent(ClientOf(w, k), if a.Deliver? then QueueOf(w.net, k)[0].obj else a.obj, DirObj(dir));
    }
  }

  lemma MissOfStep(w: World, a: Action, w': World, k: ClientID, dir: InodeID, name: string)
    requires Step(w, a, w') && name in Absent(ClientOf(w', k), DirObj(dir))
    ensures name in Absent(ClientOf(w, k), DirObj(dir)) || Misses(w, a, k, dir, name)
  {
    hide Step;
    if OfServer(a) {
      RemoteClients(w, a, w');
    } else if a.AskInode? || a.ReadInode? || a.GrantInode? {
      AskClients(w, a, w');
    } else if a.KeepName? {
      KeepsMiss(w, a, w', k, dir, name);
    } else if OfKeep(a) || a.KeepInode? {
      KeepsOtherMiss(w, a, w', k, dir);
    } else {
      DropsMiss(w, a, w', k, dir);
    }
  }

  lemma {:induction false} MissAt(run: seq<World>, acts: seq<Action>, n: nat, k: ClientID, dir: InodeID, name: string) returns (s: nat)
    requires IsRun(run, acts) && n < |run| && Initial(run[0]) && name in Absent(ClientOf(run[n], k), DirObj(dir))
    ensures s < n && Misses(run[s], acts[s], k, dir, name)
  {
    hide Step, Initial, Misses;
    InitialIsEmpty(run[0]);
    s := n - 1;
    assert Step(run[s], acts[s], run[s + 1]);
    MissOfStep(run[s], acts[s], run[n], k, dir, name);
    if !Misses(run[s], acts[s], k, dir, name) {
      s := MissAt(run, acts, n - 1, k, dir, name);
    }
  }

  // --- the course of a Lookup ---------------------------------------------------------------------

  function Question(l: LookupFlight): (ClientID, InodeID, string, nat) {
    (l.client, l.dir, l.name, l.since)
  }

  /** What a Lookup in flight carries: its answer is the authority's at the step it was read. */
  ghost predicate FlightFrom(w: World, a: Action, w': World, f: nat)
    requires f in w'.lookups
  {
    if a.Ask? && f == w.issued then
      w'.lookups[f].phase.Sent? && Question(w'.lookups[f]) == (a.client, a.dir, a.name, Epoch(ClientOf(w, a.client), DirObj(a.dir)))
    else
      && f in w.lookups && Question(w'.lookups[f]) == Question(w.lookups[f])
      && (AnswerOf(w'.lookups[f].phase).Some? ==>
            if a == ReadName(f) then AnswerOf(w'.lookups[f].phase) == Some(Binding(w, w.lookups[f].dir, w.lookups[f].name))
            else AnswerOf(w'.lookups[f].phase) == AnswerOf(w.lookups[f].phase))
      && (w'.lookups[f].phase.Kept? ==> a == KeepLease(f) || w'.lookups[f].phase == w.lookups[f].phase)
  }

  lemma FlightOfServer(w: World, a: Action, w': World, f: nat)
    requires Step(w, a, w') && OfLookup(a) && f in w'.lookups
    ensures FlightFrom(w, a, w', f)
  {
    hide Register, Binding, Epoch;
  }

  lemma FlightOfKeep(w: World, a: Action, w': World, f: nat)
    requires Step(w, a, w') && OfKeep(a) && f in w'.lookups
    ensures FlightFrom(w, a, w', f)
  {
    hide Store, StoreName;
  }

  lemma FlightOfStep(w: World, a: Action, w': World, f: nat)
    requires Step(w, a, w') && f in w'.lookups
    ensures FlightFrom(w, a, w', f)
  {
    hide Step;
    if OfKeep(a) {
      FlightOfKeep(w, a, w', f);
    } else if OfLookup(a) {
      FlightOfServer(w, a, w', f);
    } else {
      LookupsElsewhere(w, a, w');
    }
  }

  /** The step at which the authority read the answer. */
  lemma {:induction false} AnsweredAt(run: seq<World>, acts: seq<Action>, n: nat, f: nat) returns (r: nat)
    requires IsRun(run, acts) && n < |run| && Initial(run[0]) && f in run[n].lookups && AnswerOf(run[n].lookups[f].phase).Some?
    ensures r < n && AnswerOf(run[n].lookups[f].phase) == Some(Binding(run[r], run[n].lookups[f].dir, run[n].lookups[f].name))
  {
    hide Step, Initial, Binding, AnswerOf;
    InitialIsEmpty(run[0]);
    r := n - 1;
    assert Step(run[r], acts[r], run[r + 1]);
    FlightOfStep(run[r], acts[r], run[n], f);
    SentUnanswered();
    if acts[r] != ReadName(f) {
      r := AnsweredAt(run, acts, n - 1, f);
    }
  }

  lemma SentUnanswered()
    ensures AnswerOf(Sent) == None
  {
  }

  /** The step at which its response renewed, or would have renewed, the lease. */
  lemma {:induction false} KeptAt(run: seq<World>, acts: seq<Action>, n: nat, f: nat) returns (p: nat)
    requires IsRun(run, acts) && n < |run| && Initial(run[0]) && f in run[n].lookups && run[n].lookups[f].phase.Kept?
    ensures p < n && acts[p] == KeepLease(f) && f in run[p].lookups && Question(run[p].lookups[f]) == Question(run[n].lookups[f])
    ensures AnswerOf(run[p].lookups[f].phase) == AnswerOf(run[n].lookups[f].phase)
  {
    hide Step, Initial, Binding;
    InitialIsEmpty(run[0]);
    p := n - 1;
    assert Step(run[p], acts[p], run[p + 1]);
    FlightOfStep(run[p], acts[p], run[n], f);
    assert AnswerOf(run[n].lookups[f].phase).Some?;
    if acts[p] != KeepLease(f) {
      p := KeptAt(run, acts, n - 1, f);
    }
  }

  /** The step at which a Lookup was sent, with the directory's epoch of that moment. */
  lemma {:induction false} SentAt(run: seq<World>, acts: seq<Action>, n: nat, f: nat) returns (q: nat)
    requires IsRun(run, acts) && n < |run| && Initial(run[0]) && f in run[n].lookups
    ensures var l := run[n].lookups[f]; q < n && acts[q] == Ask(l.client, l.dir, l.name) && l.since == Epoch(ClientOf(run[q], l.client), DirObj(l.dir))
  {
    hide Step, Initial, Binding, AnswerOf, Epoch;
    InitialIsEmpty(run[0]);
    q := n - 1;
    assert Step(run[q], acts[q], run[q + 1]);
    FlightOfStep(run[q], acts[q], run[n], f);
    if !(acts[q].Ask? && f == run[q].issued) {
      q := SentAt(run, acts, n - 1, f);
    }
  }

  /** Keeping this Lookup's answer leaves it among the directory's bindings or misses. */
  ghost predicate Answers(w: World, f: nat)
    requires f in w.lookups && w.lookups[f].phase.Kept?
  {
    var l := w.lookups[f];
    var c := ClientOf(Apply(w, KeepName(f)), l.client);
    if l.phase.answer.Some? then l.name in Names(c, DirObj(l.dir)) && Names(c, DirObj(l.dir))[l.name] == l.phase.answer.value
    else l.name in Absent(c, DirObj(l.dir))
  }

  /**
   Exactly when the answer of a Lookup is stored, found or not, and the directory's lease renewed: if the client has not
   dropped the directory since it asked.
   */
  lemma NameStoredIff(run: seq<World>, acts: seq<Action>, n: nat, f: nat) returns (q: nat)
    requires IsRun(run, acts) && n < |run| && Initial(run[0]) && f in run[n].lookups && run[n].lookups[f].phase.Kept?
    ensures var l := run[n].lookups[f];
            && q < n && acts[q] == Ask(l.client, l.dir, l.name)
            && if Undropped(run, acts, q, n, l.client, DirObj(l.dir)) then Answers(run[n], f)
               else ClientOf(Apply(run[n], KeepName(f)), l.client) == ClientOf(run[n], l.client)
  {
    hide Undropped;
    q := SentAt(run, acts, n, f);
    var l := run[n].lookups[f];
    EpochsBetween(run, acts, q, n, l.client, DirObj(l.dir));
  }

  lemma LeaseKeptIff(run: seq<World>, acts: seq<Action>, n: nat, f: nat) returns (q: nat)
    requires IsRun(run, acts) && n < |run| && Initial(run[0]) && Enabled(run[n], KeepLease(f))
    ensures var l := run[n].lookups[f]; var c, c' := ClientOf(run[n], l.client), ClientOf(Apply(run[n], KeepLease(f)), l.client);
            && q < n && acts[q] == Ask(l.client, l.dir, l.name)
            && if Undropped(run, acts, q, n, l.client, DirObj(l.dir))
               then DirObj(l.dir) in c'.cache && c'.cache[DirObj(l.dir)] == Filled(run[n], DIR_STUB)
               else c' == c
  {
    hide Undropped;
    q := SentAt(run, acts, n, f);
    var l := run[n].lookups[f];
    EpochsBetween(run, acts, q, n, l.client, DirObj(l.dir));
  }

  /** A response still welcome when its name is stored was welcome when it renewed the lease. */
  lemma WelcomeBefore(run: seq<World>, acts: seq<Action>, p: nat, s: nat, f: nat)
    requires IsRun(run, acts) && p <= s < |run| && Initial(run[0]) && f in run[p].lookups && f in run[s].lookups
    requires Question(run[p].lookups[f]) == Question(run[s].lookups[f]) && Welcome(run[s], run[s].lookups[f])
    ensures Welcome(run[p], run[p].lookups[f])
  {
    hide IsRun, Initial;
    var l := run[p].lookups[f];
    RunKeepsInv(run, acts, p);
    InvFlight(run[p], f);
    EpochsBetween(run, acts, p, s, l.client, DirObj(l.dir));
  }

  // --- the age of an answer --------------------------------------------------------------------------

  /**
   A binding a client answers from its cache, whatever pushes were lost: the authority read it at step `r`, its response
   renewed the directory's lease at `p`, and it was stored at `s`. The lease in force was left by the last renewal, `l`,
   at most the time to live ago. That is the binding's own, and so bounds its age, exactly when no response of another
   Lookup in the directory has renewed the lease since.
   */
  lemma BindingAge(run: seq<World>, acts: seq<Action>, n: nat, k: ClientID, dir: InodeID, name: string)
    returns (r: nat, p: nat, s: nat, l: nat)
    requires IsRun(run, acts) && n < |run| && Initial(run[0]) && run[0].ttl > 0
    requires CachedDentry(ClientOf(run[n], k), dir, name, run[n].now).Some?
    ensures r < p < s < n && p <= l < n
    ensures Binding(run[r], dir, name) == CachedDentry(ClientOf(run[n], k), dir, name, run[n].now)
    ensures Renews(run[p], acts[p], k, dir) && acts[s] == KeepName(acts[p].flight)
    ensures Binds(run[s], acts[s], k, dir, name, CachedDentry(ClientOf(run[n], k), dir, name, run[n].now).value)
    ensures Renews(run[l], acts[l], k, dir) && run[l].now <= run[n].now <= run[l].now + run[0].ttl
    ensures l == p <==> Unrenewed(run, acts, p, n, k, dir)
  {
    hide Step, Initial, Binding;
    s := NameAt(run, acts, n, k, dir, name);
    var f := acts[s].flight;
    p := KeptAt(run, acts, s, f);
    r := AnsweredAt(run, acts, p, f);
    WelcomeBefore(run, acts, p, s, f);
    l := LeaseAt(run, acts, n, k, dir);
    ClockOfRun(run, acts, 0, l);
    ClockOfRun(run, acts, l, n);
    assert Renews(run[p], acts[p], k, dir);
  }

  /**
   The same of a miss: the name was unbound when the authority read it, at `r`, and the directory's lease, under which
   alone misses are answered, was renewed at most the time to live ago.
   */
  lemma MissAge(run: seq<World>, acts: seq<Action>, n: nat, k: ClientID, dir: InodeID, name: string)
    returns (r: nat, p: nat, s: nat, l: nat)
    requires IsRun(run, acts) && n < |run| && Initial(run[0]) && run[0].ttl > 0
    requires CachedNegative(ClientOf(run[n], k), dir, name, run[n].now)
    ensures r < p < s < n && p <= l < n
    ensures Binding(run[r], dir, name) == None
    ensures Renews(run[p], acts[p], k, dir) && acts[s] == KeepName(acts[p].flight) && Misses(run[s], acts[s], k, dir, name)
    ensures Renews(run[l], acts[l], k, dir) && run[l].now <= run[n].now <= run[l].now + run[0].ttl
    ensures l == p <==> Unrenewed(run, acts, p, n, k, dir)
  {
    hide Step, Initial, Binding;
    s := MissAt(run, acts, n, k, dir, name);
    var f := acts[s].flight;
    p := KeptAt(run, acts, s, f);
    r := AnsweredAt(run, acts, p, f);
    WelcomeBefore(run, acts, p, s, f);
    l := LeaseAt(run, acts, n, k, dir);
    ClockOfRun(run, acts, 0, l);
    ClockOfRun(run, acts, l, n);
    assert Renews(run[p], acts[p], k, dir);
  }

  lemma RenewedLease(w: World, a: Action, w': World, k: ClientID, dir: InodeID, name: string)
    requires Step(w, a, w') && Renews(w, a, k, dir) && w.ttl > 0
    ensures Names(ClientOf(w', k), DirObj(dir)) == Names(ClientOf(w, k), DirObj(dir)) && w'.now == w.now
    ensures Absent(ClientOf(w', k), DirObj(dir)) == Absent(ClientOf(w, k), DirObj(dir))
    ensures Leased(ClientOf(w', k), DirObj(dir), w.now)
    ensures forall id :: CachedInode(ClientOf(w', k), id, w.now) == CachedInode(ClientOf(w, k), id, w.now)
  {
    hide StoreName, Enqueue, Register, Invalidate, Binding;
  }

  /**
   In every run: the response of a Lookup of any name in a directory renews the directory's lease, and right after it
   the bindings answered there are exactly those still stored whose inode's record is leased, each stored at some earlier
   step, however long ago, whether the lease had run out meanwhile or not. The misses answered are those still stored.
   */
  lemma RenewalRevives(run: seq<World>, acts: seq<Action>, n: nat, k: ClientID, dir: InodeID, name: string) returns (s: nat)
    requires IsRun(run, acts) && n < |acts| && Initial(run[0]) && run[0].ttl > 0 && Renews(run[n], acts[n], k, dir)
    ensures var names := Names(ClientOf(run[n], k), DirObj(dir)); var answer := CachedDentry(ClientOf(run[n + 1], k), dir, name, run[n + 1].now);
            && (answer.Some? <==> name in names && CachedInode(ClientOf(run[n], k), names[name], run[n].now).Some?)
            && (answer.Some? ==> s < n && Binds(run[s], acts[s], k, dir, name, answer.value))
    ensures CachedNegative(ClientOf(run[n + 1], k), dir, name, run[n + 1].now) <==> name in Absent(ClientOf(run[n], k), DirObj(dir))
  {
    hide Step, Initial, Renews, Binds, CachedInode;
    assert Step(run[n], acts[n], run[n + 1]);
    ClockOfRun(run, acts, 0, n);
    RenewedLease(run[n], acts[n], run[n + 1], k, dir, name);
    s := 0;
    if name in Names(ClientOf(run[n], k), DirObj(dir)) {
      s := NameAt(run, acts, n, k, dir, name);
    }
  }

  // --- a run in which it is not bounded ---------------------------------------------------------------

  const LEASED := DirObj(1)

  /** The name, before and after it is rebound. */
  function Bound(ino: InodeID): Dentries {
    map[Slot(1, "a") := ino]
  }

  function Both(rec: InodeRecord): map<InodeID, InodeRecord> {
    map[2 := rec, 3 := rec]
  }

  /** While the client looks the name up. */
  function Before(ttl: Time, rec: InodeRecord, subs: set<Sub>, clients: map<ClientID, Client>, lookups: map<nat, LookupFlight>, issued: nat): World {
    World(0, ttl, Bound(2), Both(rec), Net(subs, map[], map[], {}), clients, lookups, map[], issued, {}, {})
  }

  /** After the name was rebound and its push refused. */
  function Rebound(now: Time, ttl: Time, rec: InodeRecord, job: Job, lost: set<Sub>, c: Client, lookups: map<nat, LookupFlight>,
                   gets: map<nat, GetFlight>, issued: nat): World {
    World(now, ttl, Bound(3), Both(rec), Net(SUBS, map[], map[0 := job], lost), map[0 := c], lookups, gets, issued, {}, {})
  }

  /** A client with the file's record and the directory's lease until these times, and these names. */
  function Holds(rec: InodeRecord, file: Time, dir: Time, names: map<Obj, map<string, InodeID>>): Client {
    Client(map[FILE := Entry(rec, 0, Some(file)), LEASED := Entry(DIR_STUB, 0, Some(dir))], names, map[], map[])
  }

  lemma HoldsAgain(rec: InodeRecord, file: Time, dir: Time, names: map<Obj, map<string, InodeID>>, ttl: Time, now: Time)
    requires ttl > 0
    ensures Store(Holds(rec, file, dir, names), LEASED, DIR_STUB, Lease(0, ttl), 0, now) == Holds(rec, file, now + ttl, names)
    ensures Store(Holds(rec, file, dir, names), FILE, rec, Lease(0, ttl), 0, now) == Holds(rec, now + ttl, dir, names)
  {
  }

  const NAME_KEPT := map[LEASED := map["a" := 2]]

  function Other(phase: Phase): map<nat, LookupFlight> {
    map[1 := LookupFlight(0, 1, "x", 0, phase)]
  }

  function Refresh(answer: Option<InodeRecord>, granted: bool): map<nat, GetFlight> {
    map[2 := GetFlight(0, 2, 0, answer, granted)]
  }

  lemma AskSteps(ttl: Time, rec: InodeRecord)
    ensures Step(Before(ttl, rec, {}, map[], map[], 0), Ask(0, 1, "a"), Before(ttl, rec, {}, map[], Asked(Sent), 1))
    ensures Step(Before(ttl, rec, {}, map[], Asked(Sent), 1), GrantDir(0, true), Before(ttl, rec, {DIR_SUB}, map[], Asked(Granted), 1))
  {
  }

  lemma AnswerSteps(ttl: Time, rec: InodeRecord)
    ensures Step(Before(ttl, rec, {DIR_SUB}, map[], Asked(Granted), 1), ReadName(0), Before(ttl, rec, {DIR_SUB}, map[], Asked(Named(Some(2))), 1))
    ensures Step(Before(ttl, rec, {DIR_SUB}, map[], Asked(Named(Some(2))), 1), ReadRecord(0), Before(ttl, rec, {DIR_SUB}, map[], Asked(Fetched(2, rec)), 1))
    ensures Step(Before(ttl, rec, {DIR_SUB}, map[], Asked(Fetched(2, rec)), 1), GrantRecord(0, true), Before(ttl, rec, SUBS, map[], Asked(Recorded(2, rec)), 1))
  {
  }

  function Recordful(ttl: Time, rec: InodeRecord): Client {
    Client(map[FILE := Entry(rec, 0, Some(ttl))], map[], map[], map[])
  }

  lemma RecordSteps(ttl: Time, rec: InodeRecord)
    requires ttl > 0
    ensures Step(Before(ttl, rec, SUBS, map[], Asked(Recorded(2, rec)), 1), ReadEpoch(0), Before(ttl, rec, SUBS, map[], Asked(Timed(2, rec, 0)), 1))
    ensures Step(Before(ttl, rec, SUBS, map[], Asked(Timed(2, rec, 0)), 1), KeepRecord(0),
                 Before(ttl, rec, SUBS, map[0 := Recordful(ttl, rec)], Asked(Ready(Some(2))), 1))
  {
  }

  lemma NameSteps(ttl: Time, rec: InodeRecord)
    requires ttl > 0
    ensures Step(Before(ttl, rec, SUBS, map[0 := Recordful(ttl, rec)], Asked(Ready(Some(2))), 1), KeepLease(0),
                 Before(ttl, rec, SUBS, map[0 := Holds(rec, ttl, ttl, map[])], Asked(Kept(Some(2))), 1))
    ensures Step(Before(ttl, rec, SUBS, map[0 := Holds(rec, ttl, ttl, map[])], Asked(Kept(Some(2))), 1), KeepName(0),
                 Before(ttl, rec, SUBS, map[0 := Holds(rec, ttl, ttl, NAME_KEPT)], map[], 1))
  {
  }

  lemma RebindSteps(ttl: Time, rec: InodeRecord, c: Client)
    ensures Step(Before(ttl, rec, SUBS, map[0 := c], map[], 1), Mutate(0, {LEASED}, Bound(3), Both(rec)),
                 Rebound(0, ttl, rec, Job({LEASED}, {}), {}, c, map[], map[], 1))
    ensures Step(Rebound(0, ttl, rec, Job({LEASED}, {}), {}, c, map[], map[], 1), Collect(0, LEASED),
                 Rebound(0, ttl, rec, Job({}, {DIR_SUB}), {}, c, map[], map[], 1))
  {
    assert (set s | s in SUBS && s.obj == LEASED) == {DIR_SUB};
    assert {LEASED} - {LEASED} == {} && {} + {DIR_SUB} == {DIR_SUB};
  }

  lemma LossSteps(ttl: Time, rec: InodeRecord, c: Client, age: nat)
    ensures Step(Rebound(0, ttl, rec, Job({}, {DIR_SUB}), {}, c, map[], map[], 1), Push(0, DIR_SUB, false),
                 Rebound(0, ttl, rec, Job({}, {}), {DIR_SUB}, c, map[], map[], 1))
    ensures Step(Rebound(0, ttl, rec, Job({}, {}), {DIR_SUB}, c, map[], map[], 1), Advance(age),
                 Rebound(age, ttl, rec, Job({}, {}), {DIR_SUB}, c, map[], map[], 1))
  {
    assert {DIR_SUB} - {DIR_SUB} == {};
  }

  lemma OtherSteps(ttl: Time, rec: InodeRecord, c: Client, age: nat)
    requires c.epochs == map[]
    ensures Step(Rebound(age, ttl, rec, Job({}, {}), {DIR_SUB}, c, map[], map[], 1), Ask(0, 1, "x"),
                 Rebound(age, ttl, rec, Job({}, {}), {DIR_SUB}, c, Other(Sent), map[], 2))
    ensures Step(Rebound(age, ttl, rec, Job({}, {}), {DIR_SUB}, c, Other(Sent), map[], 2), GrantDir(1, true),
                 Rebound(age, ttl, rec, Job({}, {}), {DIR_SUB}, c, Other(Granted), map[], 2))
  {
    assert SUBS + {DIR_SUB} == SUBS;
  }

  lemma MissStep(ttl: Time, rec: InodeRecord, age: nat, c: Client)
    ensures Step(Rebound(age, ttl, rec, Job({}, {}), {DIR_SUB}, c, Other(Granted), map[], 2), ReadName(1),
                 Rebound(age, ttl, rec, Job({}, {}), {DIR_SUB}, c, Other(Named(None)), map[], 2))
  {
  }

  lemma RenewStep(ttl: Time, rec: InodeRecord, age: nat)
    requires ttl > 0
    ensures Step(Rebound(age, ttl, rec, Job({}, {}), {DIR_SUB}, Holds(rec, ttl, ttl, NAME_KEPT), Other(Named(None)), map[], 2), KeepLease(1),
                 Rebound(age, ttl, rec, Job({}, {}), {DIR_SUB}, Holds(rec, ttl, age + ttl, NAME_KEPT), Other(Kept(None)), map[], 2))
  {
    hide Holds, Store;
    HoldsAgain(rec, ttl, ttl, NAME_KEPT, ttl, age);
  }

  lemma RefreshSteps(ttl: Time, rec: InodeRecord, age: nat, c: Client)
    requires c.epochs == map[]
    ensures Step(Rebound(age, ttl, rec, Job({}, {}), {DIR_SUB}, c, Other(Kept(None)), map[], 2), AskInode(0, 2),
                 Rebound(age, ttl, rec, Job({}, {}), {DIR_SUB}, c, Other(Kept(None)), Refresh(None, false), 3))
    ensures Step(Rebound(age, ttl, rec, Job({}, {}), {DIR_SUB}, c, Other(Kept(None)), Refresh(None, false), 3), ReadInode(2),
                 Rebound(age, ttl, rec, Job({}, {}), {DIR_SUB}, c, Other(Kept(None)), Refresh(Some(rec), false), 3))
  {
  }

  lemma RefreshGranted(ttl: Time, rec: InodeRecord, age: nat, c: Client)
    ensures Step(Rebound(age, ttl, rec, Job({}, {}), {DIR_SUB}, c, Other(Kept(None)), Refresh(Some(rec), false), 3), GrantInode(2, true),
                 Rebound(age, ttl, rec, Job({}, {}), {DIR_SUB}, c, Other(Kept(None)), Refresh(Some(rec), true), 3))
  {
    assert SUBS + {FILE_SUB} == SUBS;
  }

  lemma LastStep(ttl: Time, rec: InodeRecord, age: nat)
    requires ttl > 0
    ensures Step(Rebound(age, ttl, rec, Job({}, {}), {DIR_SUB}, Holds(rec, ttl, age + ttl, NAME_KEPT), Other(Kept(None)), Refresh(Some(rec), true), 3), KeepInode(2),
                 Rebound(age, ttl, rec, Job({}, {}), {DIR_SUB}, Holds(rec, age + ttl, age + ttl, NAME_KEPT), Other(Kept(None)), map[], 3))
  {
    HoldsAgain(rec, ttl, age + ttl, NAME_KEPT, ttl, age);
  }

  /** The client stores the binding as soon as it asks, at time 0. */
  lemma KeptReached(ttl: Time, rec: InodeRecord) returns (acts: seq<Action>)
    requires ttl > 0
    ensures Reached(Before(ttl, rec, {}, map[], map[], 0), acts, Before(ttl, rec, SUBS, map[0 := Holds(rec, ttl, ttl, NAME_KEPT)], map[], 1))
  {
    hide Step, Reached;
    var start := Before(ttl, rec, {}, map[], map[], 0);
    ReachStart(start);
    AskSteps(ttl, rec);
    var granted := Before(ttl, rec, {DIR_SUB}, map[], Asked(Granted), 1);
    acts := ReachTwo(start, [], start, Ask(0, 1, "a"), Before(ttl, rec, {}, map[], Asked(Sent), 1), GrantDir(0, true), granted);
    AnswerSteps(ttl, rec);
    var recorded := Before(ttl, rec, SUBS, map[], Asked(Recorded(2, rec)), 1);
    var fetched := Before(ttl, rec, {DIR_SUB}, map[], Asked(Fetched(2, rec)), 1);
    acts := ReachTwo(start, acts, granted, ReadName(0), Before(ttl, rec, {DIR_SUB}, map[], Asked(Named(Some(2))), 1), ReadRecord(0), fetched);
    ReachNext(start, acts, fetched, GrantRecord(0, true), recorded);
    acts := acts + [GrantRecord(0, true)];
    RecordSteps(ttl, rec);
    var ready := Before(ttl, rec, SUBS, map[0 := Recordful(ttl, rec)], Asked(Ready(Some(2))), 1);
    acts := ReachTwo(start, acts, recorded, ReadEpoch(0), Before(ttl, rec, SUBS, map[], Asked(Timed(2, rec, 0)), 1), KeepRecord(0), ready);
    NameSteps(ttl, rec);
    acts := ReachTwo(start, acts, ready, KeepLease(0), Before(ttl, rec, SUBS, map[0 := Holds(rec, ttl, ttl, map[])], Asked(Kept(Some(2))), 1),
                     KeepName(0), Before(ttl, rec, SUBS, map[0 := Holds(rec, ttl, ttl, NAME_KEPT)], map[], 1));
  }

  /** From there, without storing any name again, to the same binding answered after `age`. */
  lemma RevivedReached(ttl: Time, rec: InodeRecord, age: nat) returns (acts: seq<Action>)
    requires ttl > 0
    ensures Reached(Before(ttl, rec, SUBS, map[0 := Holds(rec, ttl, ttl, NAME_KEPT)], map[], 1), acts,
                    Rebound(age, ttl, rec, Job({}, {}), {DIR_SUB}, Holds(rec, age + ttl, age + ttl, NAME_KEPT), Other(Kept(None)), map[], 3))
    ensures forall i :: 0 <= i < |acts| ==> !acts[i].KeepName?
  {
    hide Step, Reached;
    var c, c' := Holds(rec, ttl, ttl, NAME_KEPT), Holds(rec, ttl, age + ttl, NAME_KEPT);
    var start := Before(ttl, rec, SUBS, map[0 := c], map[], 1);
    ReachStart(start);
    RebindSteps(ttl, rec, c);
    var owed := Rebound(0, ttl, rec, Job({}, {DIR_SUB}), {}, c, map[], map[], 1);
    acts := ReachTwo(start, [], start, Mutate(0, {LEASED}, Bound(3), Both(rec)), Rebound(0, ttl, rec, Job({LEASED}, {}), {}, c, map[], map[], 1),
                     Collect(0, LEASED), owed);
    LossSteps(ttl, rec, c, age);
    var later := Rebound(age, ttl, rec, Job({}, {}), {DIR_SUB}, c, map[], map[], 1);
    acts := ReachTwo(start, acts, owed, Push(0, DIR_SUB, false), Rebound(0, ttl, rec, Job({}, {}), {DIR_SUB}, c, map[], map[], 1), Advance(age), later);
    OtherSteps(ttl, rec, c, age);
    var granted := Rebound(age, ttl, rec, Job({}, {}), {DIR_SUB}, c, Other(Granted), map[], 2);
    acts := ReachTwo(start, acts, later, Ask(0, 1, "x"), Rebound(age, ttl, rec, Job({}, {}), {DIR_SUB}, c, Other(Sent), map[], 2), GrantDir(1, true), granted);
    MissStep(ttl, rec, age, c);
    RenewStep(ttl, rec, age);
    var renewed := Rebound(age, ttl, rec, Job({}, {}), {DIR_SUB}, c', Other(Kept(None)), map[], 2);
    acts := ReachTwo(start, acts, granted, ReadName(1), Rebound(age, ttl, rec, Job({}, {}), {DIR_SUB}, c, Other(Named(None)), map[], 2), KeepLease(1), renewed);
    RefreshSteps(ttl, rec, age, c');
    RefreshGranted(ttl, rec, age, c');
    var read := Rebound(age, ttl, rec, Job({}, {}), {DIR_SUB}, c', Other(Kept(None)), Refresh(Some(rec), false), 3);
    var answered := Rebound(age, ttl, rec, Job({}, {}), {DIR_SUB}, c', Other(Kept(None)), Refresh(Some(rec), true), 3);
    acts := ReachTwo(start, acts, renewed, AskInode(0, 2), Rebound(age, ttl, rec, Job({}, {}), {DIR_SUB}, c', Other(Kept(None)), Refresh(None, false), 3), ReadInode(2), read);
    LastStep(ttl, rec, age);
    acts := ReachTwo(start, acts, read, GrantInode(2, true), answered, KeepInode(2),
                     Rebound(age, ttl, rec, Job({}, {}), {DIR_SUB}, Holds(rec, age + ttl, age + ttl, NAME_KEPT), Other(Kept(None)), map[], 3));
  }

  /**
   With one push lost, nothing bounds the age of an answer: for every `age` there is a run in which the client stores a
   binding at time 0, the name is rebound and the push about it refused, and at time `age`, after looking another name
   up and the old inode's record, the client still answers the old binding.
   */
  lemma AgeUnbounded(ttl: Time, rec: InodeRecord, age: nat) returns (start: World, acts: seq<Action>, kept: World, later: seq<Action>, w: World)
    requires ttl > 0
    ensures Initial(start) && Reached(start, acts, kept) && Reached(kept, later, w)
    ensures start.now == kept.now == 0 && w.now == age && forall i :: 0 <= i < |later| ==> !later[i].KeepName?
    ensures CachedDentry(ClientOf(kept, 0), 1, "a", kept.now) == Binding(kept, 1, "a") == Some(2)
    ensures CachedDentry(ClientOf(w, 0), 1, "a", w.now) == Some(2) && Binding(w, 1, "a") == Some(3) && w.net.lost == {DIR_SUB}
  {
    hide Reached;
    start := Before(ttl, rec, {}, map[], map[], 0);
    kept := Before(ttl, rec, SUBS, map[0 := Holds(rec, ttl, ttl, NAME_KEPT)], map[], 1);
    w := Rebound(age, ttl, rec, Job({}, {}), {DIR_SUB}, Holds(rec, age + ttl, age + ttl, NAME_KEPT), Other(Kept(None)), map[], 3);
    acts := KeptReached(ttl, rec);
    later := RevivedReached(ttl, rec, age);
  }
}
