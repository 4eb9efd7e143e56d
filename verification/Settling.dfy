/**
 What the protocol can always bring to an end: the deliveries under way, after which clients answer what the authority
 has, and a request that nothing interferes with, after which its answer is in the cache.
 */
module Settling {
  import opened Base
  import opened Namespace
  import opened LeaseCache
  import opened Protocol
  import opened ProtocolLimits

  lemma ReachFirst(w: World, a: Action, acts: seq<Action>, w': World)
    requires Enabled(w, a) && Reached(Apply(w, a), acts, w')
    ensures Reached(w, [a] + acts, w')
  {
    hide Enabled, Apply;
    var run: seq<World> :| IsRun(run, acts) && run[0] == Apply(w, a) && run[|acts|] == w';
    var run', acts' := [w] + run, [a] + acts;
    forall i | 0 <= i < |acts'| ensures Step(run'[i], acts'[i], run'[i + 1]) {
      if i > 0 {
        assert Step(run[i - 1], acts[i - 1], run[i - 1 + 1]);
      }
    }
    assert IsRun(run', acts');
  }

  lemma ReachOn(w: World, acts: seq<Action>, mid: World, more: seq<Action>, w': World)
    requires Reached(w, acts, mid) && Reached(mid, more, w')
    ensures Reached(w, acts + more, w')
  {
    hide Step;
    var run: seq<World> :| IsRun(run, acts) && run[0] == w && run[|acts|] == mid;
    var next: seq<World> :| IsRun(next, more) && next[0] == mid && next[|more|] == w';
    var run', acts' := run + next[1..], acts + more;
    forall i | 0 <= i < |acts'| ensures Step(run'[i], acts'[i], run'[i + 1]) {
      if i < |acts| {
        assert Step(run[i], acts[i], run[i + 1]);
      } else {
        assert Step(next[i - |acts|], more[i - |acts|], next[i - |acts| + 1]);
      }
    }
    assert IsRun(run', acts') && run'[|acts'|] == w';
  }

  lemma {:induction false} RunKeepsOn(run: seq<World>, acts: seq<Action>, n: nat)
    requires IsRun(run, acts) && n < |run| && Inv(run[0])
    ensures Inv(run[n])
  {
    hide Inv;
    if n > 0 {
      RunKeepsOn(run, acts, n - 1);
      assert Step(run[n - 1], acts[n - 1], run[n - 1 + 1]);
      StepKeepsInv(run[n - 1], acts[n - 1]);
    }
  }

  lemma ReachKeepsInv(w: World, acts: seq<Action>, w': World)
    requires Reached(w, acts, w') && Inv(w)
    ensures Inv(w')
  {
    hide Inv, Step;
    var run: seq<World> :| IsRun(run, acts) && run[0] == w && run[|acts|] == w';
    RunKeepsOn(run, acts, |acts|);
  }

  // --- deliveries ----------------------------------------------------------------------------

  /** A callback is collected or fired with room for its event, an event is handled, or an acknowledgement arrives. */
  predicate Delivery(a: Action) {
    a.Collect? || (a.Push? && a.accepted) || a.Deliver? || (a.SendAck? && a.arrives)
  }

  ghost predicate Deliveries(acts: seq<Action>) {
    forall i :: 0 <= i < |acts| ==> Delivery(acts[i])
  }

  /** Deliveries change nothing at the authority, lose nothing, and register nobody. */
  ghost predicate Undisturbed(w: World, w': World) {
    && w'.now == w.now && w'.ttl == w.ttl && w'.dentry == w.dentry && w'.inode == w.inode && w'.net.lost == w.net.lost
    && w'.net.subs == w.net.subs && w'.lookups == w.lookups && w'.gets == w.gets && w'.issued == w.issued
  }

  lemma DeliverStep(w: World, k: ClientID)
    requires QueueOf(w.net, k) != []
    ensures var w' := Apply(w, Deliver(k));
            && Enabled(w, Deliver(k)) && Undisturbed(w, w') && w'.net.jobs == w.net.jobs && QueueOf(w'.net, k) == QueueOf(w.net, k)[1..]
            && forall x :: x != k ==> QueueOf(w'.net, x) == QueueOf(w.net, x)
  {
    hide Apply, Handle;
    AppliesHandle(w, k);
    HandleNet(w, k);
  }

  lemma AppliesHandle(w: World, k: ClientID)
    requires QueueOf(w.net, k) != []
    ensures Apply(w, Deliver(k)) == Handle(w, k)
  {
  }

  lemma HandleNet(w: World, k: ClientID)
    requires QueueOf(w.net, k) != []
    ensures Undisturbed(w, Handle(w, k)) && Handle(w, k).net == Taken(w.net, k)
  {
    hide Invalidate;
  }

  lemma {:induction false} DrainOne(w: World, k: ClientID) returns (acts: seq<Action>, w': World)
    ensures Reached(w, acts, w') && Deliveries(acts) && Undisturbed(w, w') && w'.net.jobs == w.net.jobs && QueueOf(w'.net, k) == []
    ensures forall x :: x != k ==> QueueOf(w'.net, x) == QueueOf(w.net, x)
    decreases |QueueOf(w.net, k)|
  {
    hide Apply, Enabled, QueueOf, Reached;
    acts, w' := [], w;
    ReachStart(w);
    if QueueOf(w.net, k) != [] {
      DeliverStep(w, k);
      acts, w' := DrainOne(Apply(w, Deliver(k)), k);
      ReachFirst(w, Deliver(k), acts, w');
      acts := [Deliver(k)] + acts;
    }
  }

  function Waiting(n: Net): set<ClientID> {
    set k | k in n.queues && n.queues[k] != []
  }

  lemma WaitingIff(n: Net, k: ClientID)
    ensures k in Waiting(n) <==> QueueOf(n, k) != []
  {
  }

  lemma {:induction false} DrainAll(w: World) returns (acts: seq<Action>, w': World)
    ensures Reached(w, acts, w') && Deliveries(acts) && Undisturbed(w, w') && w'.net.jobs == w.net.jobs
    ensures forall k :: QueueOf(w'.net, k) == []
    decreases |Waiting(w.net)|
  {
    hide Reached, QueueOf, Waiting;
    acts, w' := [], w;
    if Waiting(w.net) == {} {
      forall k ensures QueueOf(w.net, k) == [] { WaitingIff(w.net, k); }
      ReachStart(w);
    } else {
      var k :| k in Waiting(w.net);
      var mid;
      acts, mid := DrainOne(w, k);
      forall x ensures x in Waiting(mid.net) <==> x in Waiting(w.net) && x != k { WaitingIff(w.net, x); WaitingIff(mid.net, x); }
      assert Waiting(mid.net) == Waiting(w.net) - {k};
      var more;
      more, w' := DrainAll(mid);
      ReachOn(w, acts, mid, more, w');
      acts := acts + more;
    }
  }

  function OwedPairs(n: Net): set<(nat, Obj)> {
    set j, o | j in n.jobs && o in n.jobs[j].owed :: (j, o)
  }

  function PushPairs(n: Net): set<(nat, Sub)> {
    set j, s | j in n.jobs && s in n.jobs[j].pushes :: (j, s)
  }

  lemma CollectStep(w: World, j: nat, o: Obj)
    requires (j, o) in OwedPairs(w.net)
    ensures var w' := Apply(w, Collect(j, o));
            Enabled(w, Collect(j, o)) && Undisturbed(w, w') && OwedPairs(w'.net) == OwedPairs(w.net) - {(j, o)}
  {
    var w' := Apply(w, Collect(j, o));
    forall x, y ensures (x, y) in OwedPairs(w'.net) <==> (x, y) in OwedPairs(w.net) - {(j, o)} {
    }
  }

  lemma {:induction false} CollectAll(w: World) returns (acts: seq<Action>, w': World)
    ensures Reached(w, acts, w') && Deliveries(acts) && Undisturbed(w, w') && OwedPairs(w'.net) == {}
    decreases |OwedPairs(w.net)|
  {
    hide Apply, Enabled, OwedPairs, Reached;
    acts, w' := [], w;
    ReachStart(w);
    if OwedPairs(w.net) != {} {
      var p :| p in OwedPairs(w.net);
      CollectStep(w, p.0, p.1);
      acts, w' := CollectAll(Apply(w, Collect(p.0, p.1)));
      ReachFirst(w, Collect(p.0, p.1), acts, w');
      acts := [Collect(p.0, p.1)] + acts;
    }
  }

  lemma PushStep(w: World, j: nat, s: Sub)
    requires (j, s) in PushPairs(w.net) && QueueOf(w.net, s.client) == []
    ensures var w' := Apply(w, Push(j, s, true));
            && Enabled(w, Push(j, s, true)) && Undisturbed(w, w') && OwedPairs(w'.net) == OwedPairs(w.net)
            && PushPairs(w'.net) == PushPairs(w.net) - {(j, s)}
  {
    var w' := Apply(w, Push(j, s, true));
    forall x, y ensures (x, y) in PushPairs(w'.net) <==> (x, y) in PushPairs(w.net) - {(j, s)} {
    }
  }

  lemma SameJobPairs(n: Net, n': Net)
    requires n'.jobs == n.jobs
    ensures OwedPairs(n') == OwedPairs(n) && PushPairs(n') == PushPairs(n)
  {
  }

  /** A client with a full queue handles what waits for it first, so that no push is dropped. */
  lemma {:induction false} PushAll(w: World) returns (acts: seq<Action>, w': World)
    ensures Reached(w, acts, w') && Deliveries(acts) && Undisturbed(w, w') && OwedPairs(w'.net) == OwedPairs(w.net) && PushPairs(w'.net) == {}
    decreases |PushPairs(w.net)|
  {
    hide Apply, Enabled, OwedPairs, PushPairs, Reached;
    acts, w' := [], w;
    ReachStart(w);
    if PushPairs(w.net) != {} {
      var p :| p in PushPairs(w.net);
      var mid, more;
      acts, mid := DrainOne(w, p.1.client);
      SameJobPairs(w.net, mid.net);
      PushStep(mid, p.0, p.1);
      more, w' := PushAll(Apply(mid, Push(p.0, p.1, true)));
      ReachFirst(mid, Push(p.0, p.1, true), more, w');
      ReachOn(w, acts, mid, [Push(p.0, p.1, true)] + more, w');
      acts := acts + ([Push(p.0, p.1, true)] + more);
    }
  }

  lemma AckStep(w: World, d: Debt)
    requires d in w.debts
    ensures var w' := Apply(w, SendAck(d, true));
            Enabled(w, SendAck(d, true)) && Undisturbed(w, w') && w'.net == w.net && w'.debts == w.debts - {d} && w'.clients == w.clients
  {
  }

  lemma {:induction false} AckAll(w: World) returns (acts: seq<Action>, w': World)
    ensures Reached(w, acts, w') && Deliveries(acts) && Undisturbed(w, w') && w'.net == w.net && w'.debts == {} && w'.clients == w.clients
    decreases |w.debts|
  {
    hide Apply, Enabled, Reached;
    acts, w' := [], w;
    ReachStart(w);
    if w.debts != {} {
      var d :| d in w.debts;
      AckStep(w, d);
      acts, w' := AckAll(Apply(w, SendAck(d, true)));
      ReachFirst(w, SendAck(d, true), acts, w');
      acts := [SendAck(d, true)] + acts;
    }
  }

  /** Nothing is owed to anybody, nothing waits, and every recall handled has been acknowledged. */
  ghost predicate Settled(w: World) {
    && OwedPairs(w.net) == {} && PushPairs(w.net) == {} && w.debts == {} && forall k :: QueueOf(w.net, k) == []
  }

  lemma SettledQuiet(w: World, s: Sub)
    requires Settled(w)
    ensures !Coming(w.net, s)
  {
    forall j | j in w.net.jobs ensures s.obj !in w.net.jobs[j].owed && s !in w.net.jobs[j].pushes {
      assert (j, s.obj) !in OwedPairs(w.net) && (j, s) !in PushPairs(w.net);
    }
  }

  lemma Settle(w: World) returns (acts: seq<Action>, w': World)
    ensures Reached(w, acts, w') && Deliveries(acts) && Undisturbed(w, w') && Settled(w')
  {
    hide Reached, OwedPairs, PushPairs, QueueOf;
    var w1, w2, w3, more;
    acts, w1 := CollectAll(w);
    more, w2 := PushAll(w1);
    ReachOn(w, acts, w1, more, w2);
    acts := acts + more;
    more, w3 := DrainAll(w2);
    ReachOn(w, acts, w2, more, w3);
    acts := acts + more;
    SameJobPairs(w2.net, w3.net);
    more, w' := AckAll(w3);
    ReachOn(w, acts, w3, more, w');
    acts := acts + more;
  }

  /** What the client answers about the name is what the authority's directory has. */
  ghost predicate Agrees(w: World, k: ClientID, dir: InodeID, name: string) {
    var ino := CachedDentry(ClientOf(w, k), dir, name, w.now);
    && (ino.Some? ==> Slot(dir, name) in w.dentry && w.dentry[Slot(dir, name)] == ino.value)
    && (CachedNegative(ClientOf(w, k), dir, name, w.now) ==> Slot(dir, name) !in w.dentry)
  }

  lemma SettledAgrees(w: World, k: ClientID, dir: InodeID, name: string)
    requires Inv(w) && Settled(w) && Sub(k, DirObj(dir)) !in w.net.lost
    ensures Agrees(w, k, dir, name)
  {
    hide Settled, Coming, FlightOK;
    SettledQuiet(w, Sub(k, DirObj(dir)));
    assert CacheOK(w, k, dir);
  }

  /**
   From every world a run can reach, the deliveries under way can all be completed, with no mutation, nothing refused and
   nothing lost. Then nothing is owed, nothing waits and nothing is unacknowledged, and every client answers about every
   name in every directory for which nothing of its was ever lost what the authority has.
   */
  lemma SettlesToAuthority(run: seq<World>, acts: seq<Action>, n: nat) returns (more: seq<Action>, w: World)
    requires IsRun(run, acts) && n < |run| && Initial(run[0])
    ensures Reached(run[n], more, w) && Deliveries(more) && Undisturbed(run[n], w) && Settled(w)
    ensures forall k: ClientID, dir: InodeID, name: string :: Sub(k, DirObj(dir)) !in run[n].net.lost ==> Agrees(w, k, dir, name)
  {
    hide IsRun, Initial, Reached, Settled, Inv, Agrees;
    more, w := Settle(run[n]);
    RunKeepsInv(run, acts, n);
    ReachKeepsInv(run[n], more, w);
    forall k: ClientID, dir: InodeID, name: string | Sub(k, DirObj(dir)) !in run[n].net.lost ensures Agrees(w, k, dir, name) {
      SettledAgrees(w, k, dir, name);
    }
  }

  // --- requests ------------------------------------------------------------------------------------

  /** The request in flight, at this phase, and nothing else changed at the authority or in any cache. */
  ghost predicate InFlight(w: World, w': World, k: ClientID, dir: InodeID, name: string, phase: Phase) {
    && w'.issued == w.issued + 1 && w'.now == w.now && w'.ttl == w.ttl && w'.dentry == w.dentry && w'.inode == w.inode && w'.clients == w.clients
    && w'.lookups == w.lookups[w.issued := LookupFlight(k, dir, name, Epoch(ClientOf(w, k), DirObj(dir)), phase)]
  }

  lemma AskSteps(w: World, k: ClientID, dir: InodeID, name: string) returns (acts: seq<Action>, w': World)
    ensures Reached(w, acts, w') && InFlight(w, w', k, dir, name, Named(Binding(w, dir, name))) && Sub(k, DirObj(dir)) in w'.net.subs
  {
    hide Reached, Binding, Epoch;
    var w1 := Apply(w, Ask(k, dir, name));
    var w2 := Apply(w1, GrantDir(w.issued, true));
    w' := Apply(w2, ReadName(w.issued));
    ReachStart(w);
    ReachNext(w, [], w, Ask(k, dir, name), w1);
    acts := ReachTwo(w, [] + [Ask(k, dir, name)], w1, GrantDir(w.issued, true), w2, ReadName(w.issued), w');
    BindingSame(w, w2, dir, name);
  }

  lemma BindingSame(w: World, w': World, dir: InodeID, name: string)
    requires w'.dentry == w.dentry
    ensures Binding(w', dir, name) == Binding(w, dir, name)
  {
  }

  lemma RecordSteps(w: World, w1: World, k: ClientID, dir: InodeID, name: string, id: InodeID) returns (acts: seq<Action>, w': World)
    requires InFlight(w, w1, k, dir, name, Named(Some(id))) && id in w.inode
    ensures Reached(w1, acts, w') && InFlight(w, w', k, dir, name, Timed(id, w.inode[id], Epoch(ClientOf(w, k), InoObj(id))))
    ensures Sub(k, InoObj(id)) in w'.net.subs && w1.net.subs <= w'.net.subs
  {
    hide Reached, Step, InFlight;
    var f, w2, w3 := w.issued, w1, w1;
    w2 := ReadRecordStep(w, w1, k, dir, name, id);
    w3 := GrantRecordStep(w, w2, k, dir, name, id, w.inode[id]);
    w' := ReadEpochStep(w, w3, k, dir, name, id, w.inode[id]);
    ReachStart(w1);
    ReachNext(w1, [], w1, ReadRecord(f), w2);
    acts := ReachTwo(w1, [] + [ReadRecord(f)], w2, GrantRecord(f, true), w3, ReadEpoch(f), w');
  }

  lemma ReadRecordStep(w: World, w1: World, k: ClientID, dir: InodeID, name: string, id: InodeID) returns (w': World)
    requires InFlight(w, w1, k, dir, name, Named(Some(id))) && id in w.inode
    ensures Step(w1, ReadRecord(w.issued), w') && InFlight(w, w', k, dir, name, Fetched(id, w.inode[id])) && w'.net == w1.net
  {
    w' := Apply(w1, ReadRecord(w.issued));
  }

  lemma GrantRecordStep(w: World, w1: World, k: ClientID, dir: InodeID, name: string, id: InodeID, rec: InodeRecord) returns (w': World)
    requires InFlight(w, w1, k, dir, name, Fetched(id, rec))
    ensures Step(w1, GrantRecord(w.issued, true), w') && InFlight(w, w', k, dir, name, Recorded(id, rec))
    ensures w'.net.subs == w1.net.subs + {Sub(k, InoObj(id))}
  {
    w' := Apply(w1, GrantRecord(w.issued, true));
  }

  lemma ReadEpochStep(w: World, w1: World, k: ClientID, dir: InodeID, name: string, id: InodeID, rec: InodeRecord) returns (w': World)
    requires InFlight(w, w1, k, dir, name, Recorded(id, rec))
    ensures Step(w1, ReadEpoch(w.issued), w') && InFlight(w, w', k, dir, name, Timed(id, rec, Epoch(ClientOf(w, k), InoObj(id)))) && w'.net == w1.net
  {
    hide Epoch;
    w' := Apply(w1, ReadEpoch(w.issued));
  }

  lemma KeepRecordStep(w: World, w1: World, k: ClientID, dir: InodeID, name: string, id: InodeID, rec: InodeRecord) returns (w': World)
    requires InFlight(w, w1, k, dir, name, Timed(id, rec, Epoch(ClientOf(w, k), InoObj(id))))
    ensures Step(w1, KeepRecord(w.issued), w') && w'.net == w1.net
    ensures var c := Store(ClientOf(w, k), InoObj(id), rec, LeaseOf(w), Epoch(ClientOf(w, k), InoObj(id)), w.now);
            InFlight(SetClient(w, k, c), w', k, dir, name, Ready(Some(id))) && Epoch(c, DirObj(dir)) == Epoch(ClientOf(w, k), DirObj(dir))
  {
    w' := Apply(w1, KeepRecord(w.issued));
  }

  lemma KeepAnswerSteps(w: World, w1: World, k: ClientID, dir: InodeID, name: string, phase: Phase) returns (acts: seq<Action>, w': World)
    requires InFlight(w, w1, k, dir, name, phase) && (phase.Ready? || phase == Named(None))
    ensures Reached(w1, acts, w') && w'.net == w1.net && w'.now == w.now && w'.dentry == w.dentry && w'.inode == w.inode
    ensures var c, since := ClientOf(w, k), Epoch(ClientOf(w, k), DirObj(dir));
            ClientOf(w', k) == StoreName(Store(c, DirObj(dir), DIR_STUB, LeaseOf(w), since, w.now), dir, name, phase.answer, since)
  {
    hide Reached, Binding, Epoch, Store, StoreName;
    var f := w.issued;
    var w2 := Apply(w1, KeepLease(f));
    w' := Apply(w2, KeepName(f));
    ReachStart(w1);
    acts := ReachTwo(w1, [], w1, KeepLease(f), w2, KeepName(f), w');
  }

  lemma NamedAnswers(c: Client, l: Lease, dir: InodeID, name: string, id: InodeID, rec: InodeRecord, now: Time)
    ensures var c1 := Store(c, InoObj(id), rec, l, Epoch(c, InoObj(id)), now);
            var c2 := Store(c1, DirObj(dir), DIR_STUB, l, Epoch(c1, DirObj(dir)), now);
            var c3 := StoreName(c2, dir, name, Some(id), Epoch(c1, DirObj(dir)));
            CachedDentry(c3, dir, name, now) == Some(id) && CachedInode(c3, id, now) == Some(rec)
  {
  }

  lemma MissAnswers(c: Client, l: Lease, dir: InodeID, name: string, now: Time)
    ensures var since := Epoch(c, DirObj(dir));
            CachedNegative(StoreName(Store(c, DirObj(dir), DIR_STUB, l, since, now), dir, name, None, since), dir, name, now)
  {
  }

  /** A Lookup that nothing interferes with ends, and the client then answers what the authority has, name and record, registered for both. */
  lemma LookupCompletes(w: World, k: ClientID, dir: InodeID, name: string) returns (acts: seq<Action>, w': World)
    requires Slot(dir, name) in w.dentry && w.dentry[Slot(dir, name)] in w.inode
    ensures Reached(w, acts, w') && w'.dentry == w.dentry && w'.inode == w.inode && w'.now == w.now
    ensures var id := w.dentry[Slot(dir, name)];
            && CachedDentry(ClientOf(w', k), dir, name, w'.now) == Some(id) && CachedInode(ClientOf(w', k), id, w'.now) == Some(w.inode[id])
            && Sub(k, DirObj(dir)) in w'.net.subs && Sub(k, InoObj(id)) in w'.net.subs
  {
    hide Reached, Epoch, Store, StoreName, Enabled, Apply, CachedDentry, CachedInode;
    var id, more, w1, w2, w3 := w.dentry[Slot(dir, name)], [], w, w, w;
    acts, w1 := AskSteps(w, k, dir, name);
    more, w2 := RecordSteps(w, w1, k, dir, name, id);
    ReachOn(w, acts, w1, more, w2);
    acts := acts + more;
    w3 := KeepRecordStep(w, w2, k, dir, name, id, w.inode[id]);
    ReachNext(w, acts, w2, KeepRecord(w.issued), w3);
    acts := acts + [KeepRecord(w.issued)];
    var c := Store(ClientOf(w, k), InoObj(id), w.inode[id], LeaseOf(w), Epoch(ClientOf(w, k), InoObj(id)), w.now);
    more, w' := KeepAnswerSteps(SetClient(w, k, c), w3, k, dir, name, Ready(Some(id)));
    ReachOn(w, acts, w3, more, w');
    acts := acts + more;
    NamedAnswers(ClientOf(w, k), LeaseOf(w), dir, name, id, w.inode[id], w.now);
  }

  /** A Lookup that finds nothing, likewise. */
  lemma MissCompletes(w: World, k: ClientID, dir: InodeID, name: string) returns (acts: seq<Action>, w': World)
    requires Slot(dir, name) !in w.dentry
    ensures Reached(w, acts, w') && w'.dentry == w.dentry && w'.inode == w.inode && w'.now == w.now
    ensures CachedNegative(ClientOf(w', k), dir, name, w'.now) && Sub(k, DirObj(dir)) in w'.net.subs
  {
    hide Reached, Epoch, Store, StoreName, Enabled, Apply, CachedNegative;
    var w1, more;
    acts, w1 := AskSteps(w, k, dir, name);
    more, w' := KeepAnswerSteps(w, w1, k, dir, name, Named(None));
    ReachOn(w, acts, w1, more, w');
    acts := acts + more;
    MissAnswers(ClientOf(w, k), LeaseOf(w), dir, name, w.now);
  }

  /** And a GetInode. */
  lemma GetCompletes(w: World, k: ClientID, id: InodeID) returns (acts: seq<Action>, w': World)
    requires id in w.inode
    ensures Reached(w, acts, w') && w'.dentry == w.dentry && w'.inode == w.inode && w'.now == w.now
    ensures CachedInode(ClientOf(w', k), id, w'.now) == Some(w.inode[id]) && Sub(k, InoObj(id)) in w'.net.subs
  {
    hide Reached, Step, InGet, Epoch;
    var f, w1, w2, w3 := w.issued, w, w, w;
    w1 := AskInodeStep(w, k, id);
    w2 := ReadInodeStep(w, w1, k, id);
    w3 := GrantInodeStep(w, w2, k, id, w.inode[id]);
    w' := KeepInodeStep(w, w3, k, id, w.inode[id]);
    ReachStart(w);
    acts := ReachTwo(w, [], w, AskInode(k, id), w1, ReadInode(f), w2);
    acts := ReachTwo(w, acts, w2, GrantInode(f, true), w3, KeepInode(f), w');
  }

  ghost predicate InGet(w: World, w': World, k: ClientID, id: InodeID, answer: Option<InodeRecord>, granted: bool) {
    && w'.issued == w.issued + 1 && w'.now == w.now && w'.ttl == w.ttl && w'.dentry == w.dentry && w'.inode == w.inode && w'.clients == w.clients
    && w'.gets == w.gets[w.issued := GetFlight(k, id, Epoch(ClientOf(w, k), InoObj(id)), answer, granted)]
  }

  lemma AskInodeStep(w: World, k: ClientID, id: InodeID) returns (w': World)
    ensures Step(w, AskInode(k, id), w') && InGet(w, w', k, id, None, false)
  {
    w' := Apply(w, AskInode(k, id));
  }

  lemma ReadInodeStep(w: World, w1: World, k: ClientID, id: InodeID) returns (w': World)
    requires InGet(w, w1, k, id, None, false) && id in w.inode
    ensures Step(w1, ReadInode(w.issued), w') && InGet(w, w', k, id, Some(w.inode[id]), false)
  {
    w' := Apply(w1, ReadInode(w.issued));
  }

  lemma GrantInodeStep(w: World, w1: World, k: ClientID, id: InodeID, rec: InodeRecord) returns (w': World)
    requires InGet(w, w1, k, id, Some(rec), false)
    ensures Step(w1, GrantInode(w.issued, true), w') && InGet(w, w', k, id, Some(rec), true) && Sub(k, InoObj(id)) in w'.net.subs
  {
    w' := Apply(w1, GrantInode(w.issued, true));
  }

  lemma KeepInodeStep(w: World, w1: World, k: ClientID, id: InodeID, rec: InodeRecord) returns (w': World)
    requires InGet(w, w1, k, id, Some(rec), true)
    ensures Step(w1, KeepInode(w.issued), w') && w'.net == w1.net && w'.now == w.now && w'.dentry == w.dentry && w'.inode == w.inode
    ensures CachedInode(ClientOf(w', k), id, w'.now) == Some(rec)
  {
    w' := Apply(w1, KeepInode(w.issued));
  }
}
