/**
 The metadata protocol between one authority and its clients (pkg/mds): a transition system whose actions are the
 critical sections of the client and of the handlers, so a run is any interleaving of requests, responses in flight,
 mutations, invalidation pushes and their deliveries.
 */
module Protocol {
  import opened Base
  import opened Namespace
  import opened LeaseCache

  type ClientID = nat

  /** A holder's registration for pushes about one object. */
  datatype Sub = Sub(client: ClientID, obj: Obj)

  datatype Event = Invalidated(obj: Obj) | Recalled(obj: Obj, recall: nat)

  /** A mutation that has changed the store: the objects it has yet to bump, and the callbacks it has yet to fire. */
  datatype Job = Job(owed: set<Obj>, pushes: set<Sub>)

  /** How far a Lookup that missed the cache has come, in the order of its sections on both sides. */
  datatype Phase =
    | Sent
    | Granted
    | Named(answer: Option<InodeID>)
    | Fetched(id: InodeID, rec: InodeRecord)
    | Recorded(id: InodeID, rec: InodeRecord)
    | Timed(id: InodeID, rec: InodeRecord, epoch: nat)
    | Ready(answer: Option<InodeID>)
    | Kept(answer: Option<InodeID>)

  datatype LookupFlight = LookupFlight(client: ClientID, dir: InodeID, name: string, since: nat, phase: Phase)

  datatype GetFlight = GetFlight(client: ClientID, id: InodeID, since: nat, answer: Option<InodeRecord>, granted: bool)

  /** A recall whose copy the client has dropped, and which it has yet to acknowledge. */
  datatype Debt = Debt(client: ClientID, obj: Obj, recall: nat)

  /** An acknowledged recall: the client, the object, and the flights that had been issued by then. */
  datatype Ack = Ack(client: ClientID, obj: Obj, recall: nat, issued: nat)

  /** Registrations, event queues, mutations under way, and what was dropped or refused. */
  datatype Net = Net(subs: set<Sub>, queues: map<ClientID, seq<Event>>, jobs: map<nat, Job>, lost: set<Sub>)

  datatype World = World(
    now: Time, ttl: Time, dentry: Dentries, inode: map<InodeID, InodeRecord>, net: Net,
    clients: map<ClientID, Client>, lookups: map<nat, LookupFlight>, gets: map<nat, GetFlight>, issued: nat, acks: set<Ack>,
    debts: set<Debt>)

  const QUEUE_CAP := 64

  function ClientOf(w: World, k: ClientID): Client {
    if k in w.clients then w.clients[k] else EMPTY
  }

  function QueueOf(n: Net, k: ClientID): seq<Event> {
    if k in n.queues then n.queues[k] else []
  }

  function SetClient(w: World, k: ClientID, c: Client): World {
    w.(clients := w.clients[k := c])
  }

  function SetPhase(w: World, f: nat, phase: Phase): World
    requires f in w.lookups
  {
    w.(lookups := w.lookups[f := w.lookups[f].(phase := phase)])
  }

  function Binding(w: World, dir: InodeID, name: string): Option<InodeID> {
    if Slot(dir, name) in w.dentry then Some(w.dentry[Slot(dir, name)]) else None
  }

  function LeaseOf(w: World): Lease {
    Lease(0, w.ttl)
  }

  datatype Action =
    | Advance(dt: nat)
    // mutations: the store changes, then each object is bumped, then each callback is fired
    | Mutate(job: nat, keys: set<Obj>, dentry: Dentries, inode: map<InodeID, InodeRecord>)
    | Collect(job: nat, obj: Obj)
    | Push(job: nat, sub: Sub, accepted: bool)
    // a recall: whom to ask is settled, then each is pushed to
    | Recall(obj: Obj, mutator: ClientID, recall: nat)
    | PushRecall(sub: Sub, recall: nat, accepted: bool)
    // the client's stream ends or is superseded
    | Reconnect(client: ClientID)
    | Deliver(client: ClientID)
    // the acknowledgement is a request of its own, sent after the drop; it may fail
    | SendAck(debt: Debt, arrives: bool)
    | DropOwn(client: ClientID, obj: Obj)
    // Readdir: registers the client for the directory, and leaves nothing in its cache
    | List(client: ClientID, dir: InodeID, accepted: bool)
    // Lookup
    | Ask(client: ClientID, dir: InodeID, name: string)
    | GrantDir(flight: nat, accepted: bool)
    | ReadName(flight: nat)
    | ReadRecord(flight: nat)
    | GrantRecord(flight: nat, accepted: bool)
    | ReadEpoch(flight: nat)
    | KeepRecord(flight: nat)
    | KeepLease(flight: nat)
    | KeepName(flight: nat)
    // GetInode
    | AskInode(client: ClientID, id: InodeID)
    | ReadInode(flight: nat)
    | GrantInode(flight: nat, accepted: bool)
    | KeepInode(flight: nat)

  /** Only the directories whose objects a mutation bumps have bindings it changes. */
  ghost predicate Covers(keys: set<Obj>, d: Dentries, d': Dentries) {
    forall s :: s in d.Keys + d'.Keys && (s in d && s in d' ==> d[s] != d'[s]) ==> DirObj(s.dir) in keys
  }

  /**
   What may happen. A client that asked has its recall handler registered whether or not there was room for its
   subscription, so a recall reaches the refused too.
   */
  ghost predicate Enabled(w: World, a: Action) {
    match a
    case Advance(_) => true
    case Mutate(job, keys, dentry, _) => job !in w.net.jobs && Covers(keys, w.dentry, dentry)
    case Collect(job, obj) => job in w.net.jobs && obj in w.net.jobs[job].owed
    case Push(job, sub, accepted) => job in w.net.jobs && sub in w.net.jobs[job].pushes && (accepted ==> |QueueOf(w.net, sub.client)| < QUEUE_CAP)
    case PushRecall(sub, _, accepted) => sub in w.net.subs + w.net.lost && (accepted ==> |QueueOf(w.net, sub.client)| < QUEUE_CAP)
    case Recall(_, _, _) => true
    case Reconnect(_) => true
    case Deliver(client) => QueueOf(w.net, client) != []
    case SendAck(debt, _) => debt in w.debts
    case DropOwn(_, _) => true
    case List(_, _, _) => true
    case Ask(_, _, _) => true
    case GrantDir(f, _) => f in w.lookups && w.lookups[f].phase.Sent?
    case ReadName(f) => f in w.lookups && w.lookups[f].phase.Granted?
    case ReadRecord(f) => f in w.lookups && w.lookups[f].phase.Named? && w.lookups[f].phase.answer.Some? && w.lookups[f].phase.answer.value in w.inode
    case GrantRecord(f, _) => f in w.lookups && w.lookups[f].phase.Fetched?
    case ReadEpoch(f) => f in w.lookups && w.lookups[f].phase.Recorded?
    case KeepRecord(f) => f in w.lookups && w.lookups[f].phase.Timed?
    case KeepLease(f) => f in w.lookups && (w.lookups[f].phase.Ready? || w.lookups[f].phase == Named(None))
    case KeepName(f) => f in w.lookups && w.lookups[f].phase.Kept?
    case AskInode(_, _) => true
    case ReadInode(f) => f in w.gets && w.gets[f].answer.None? && w.gets[f].id in w.inode
    case GrantInode(f, _) => f in w.gets && w.gets[f].answer.Some? && !w.gets[f].granted
    case KeepInode(f) => f in w.gets && w.gets[f].answer.Some? && w.gets[f].granted
  }

  function Enqueue(n: Net, sub: Sub, e: Event, accepted: bool): Net {
    if accepted then n.(queues := n.queues[sub.client := QueueOf(n, sub.client) + [e]])
    else n.(lost := n.lost + {sub})
  }

  /** A registration is refused when the object's registry is full, unless it is there already. */
  function Register(n: Net, sub: Sub, accepted: bool): Net {
    if accepted || sub in n.subs then n.(subs := n.subs + {sub}) else n.(lost := n.lost + {sub})
  }

  /** The callbacks of one object, as they are registered at this moment, become this job's to fire. */
  function Gathered(n: Net, job: nat, obj: Obj): Net
    requires job in n.jobs
  {
    var j := n.jobs[job];
    n.(jobs := n.jobs[job := Job(j.owed - {obj}, j.pushes + (set s | s in n.subs && s.obj == obj))])
  }

  function Fired(n: Net, job: nat, sub: Sub): Net
    requires job in n.jobs
  {
    n.(jobs := n.jobs[job := n.jobs[job].(pushes := n.jobs[job].pushes - {sub})])
  }

  function Opened(n: Net, job: nat, keys: set<Obj>): Net {
    n.(jobs := n.jobs[job := Job(keys, {})])
  }

  function Taken(n: Net, k: ClientID): Net
    requires QueueOf(n, k) != []
  {
    n.(queues := n.queues[k := QueueOf(n, k)[1..]])
  }

  /** Every event that waits for the client is lost. */
  function Cut(n: Net, k: ClientID): Net {
    n.(queues := n.queues[k := []], lost := n.lost + (set e | e in QueueOf(n, k) :: Sub(k, e.obj)))
  }

  function Apply(w: World, a: Action): World
    requires Enabled(w, a)
  {
    match a
    case Advance(dt) => w.(now := w.now + dt)
    case Mutate(job, keys, dentry, inode) => w.(dentry := dentry, inode := inode, net := Opened(w.net, job, keys))
    case Collect(job, obj) => w.(net := Gathered(w.net, job, obj))
    case Push(job, sub, accepted) => w.(net := Enqueue(Fired(w.net, job, sub), sub, Invalidated(sub.obj), accepted))
    case PushRecall(sub, recall, accepted) => w.(net := Enqueue(w.net, sub, Recalled(sub.obj, recall), accepted))
    case Recall(_, _, _) => w
    case Reconnect(k) => w.(net := Cut(w.net, k))
    case Deliver(k) => Handle(w, k)
    case SendAck(debt, arrives) =>
      w.(debts := w.debts - {debt}, acks := if arrives then w.acks + {Ack(debt.client, debt.obj, debt.recall, w.issued)} else w.acks)
    case DropOwn(k, obj) => SetClient(w, k, Invalidate(ClientOf(w, k), obj))
    case List(k, dir, accepted) => w.(net := Register(w.net, Sub(k, DirObj(dir)), accepted))
    case Ask(k, dir, name) =>
      w.(lookups := w.lookups[w.issued := LookupFlight(k, dir, name, Epoch(ClientOf(w, k), DirObj(dir)), Sent)], issued := w.issued + 1)
    case GrantDir(f, accepted) =>
      SetPhase(w, f, Granted).(net := Register(w.net, Sub(w.lookups[f].client, DirObj(w.lookups[f].dir)), accepted))
    case ReadName(f) => SetPhase(w, f, Named(Binding(w, w.lookups[f].dir, w.lookups[f].name)))
    case ReadRecord(f) =>
      var id := w.lookups[f].phase.answer.value;
      SetPhase(w, f, Fetched(id, w.inode[id]))
    case GrantRecord(f, accepted) =>
      var l := w.lookups[f];
      SetPhase(w, f, Recorded(l.phase.id, l.phase.rec)).(net := Register(w.net, Sub(l.client, InoObj(l.phase.id)), accepted))
    case ReadEpoch(f) =>
      var l := w.lookups[f];
      SetPhase(w, f, Timed(l.phase.id, l.phase.rec, Epoch(ClientOf(w, l.client), InoObj(l.phase.id))))
    case KeepRecord(f) =>
      var l := w.lookups[f];
      var c := Store(ClientOf(w, l.client), InoObj(l.phase.id), l.phase.rec, LeaseOf(w), l.phase.epoch, w.now);
      SetPhase(SetClient(w, l.client, c), f, Ready(Some(l.phase.id)))
    case KeepLease(f) =>
      var l := w.lookups[f];
      var c := Store(ClientOf(w, l.client), DirObj(l.dir), DIR_STUB, LeaseOf(w), l.since, w.now);
      SetPhase(SetClient(w, l.client, c), f, Kept(l.phase.answer))
    case KeepName(f) =>
      var l := w.lookups[f];
      var c := StoreName(ClientOf(w, l.client), l.dir, l.name, l.phase.answer, l.since);
      SetClient(w, l.client, c).(lookups := w.lookups - {f})
    case AskInode(k, id) =>
      w.(gets := w.gets[w.issued := GetFlight(k, id, Epoch(ClientOf(w, k), InoObj(id)), None, false)], issued := w.issued + 1)
    case ReadInode(f) =>
      var g := w.gets[f];
      w.(gets := w.gets[f := g.(answer := Some(w.inode[g.id]))])
    case GrantInode(f, accepted) =>
      var g := w.gets[f];
      w.(gets := w.gets[f := g.(granted := true)], net := Register(w.net, Sub(g.client, InoObj(g.id)), accepted))
    case KeepInode(f) =>
      var g := w.gets[f];
      var c := Store(ClientOf(w, g.client), InoObj(g.id), g.answer.value, LeaseOf(w), g.since, w.now);
      SetClient(w, g.client, c).(gets := w.gets - {f})
  }

  ghost predicate Step(w: World, a: Action, w': World) {
    Enabled(w, a) && w' == Apply(w, a)
  }

  /** handleEvent up to the request it ends with: the copy is dropped, and if it is a recall an acknowledgement is owed. */
  function Handle(w: World, k: ClientID): World
    requires QueueOf(w.net, k) != []
  {
    var e := QueueOf(w.net, k)[0];
    var w1 := SetClient(w.(net := Taken(w.net, k)), k, Invalidate(ClientOf(w, k), e.obj));
    if e.Recalled? then w1.(debts := w.debts + {Debt(k, e.obj, e.recall)}) else w1
  }

  // --- directory coherence ---------------------------------------------------------------

  ghost predicate Queued(n: Net, s: Sub) {
    exists e :: e in QueueOf(n, s.client) && e.obj == s.obj
  }

  ghost predicate Owed(n: Net, s: Sub) {
    exists j :: j in n.jobs && (s.obj in n.jobs[j].owed || s in n.jobs[j].pushes)
  }

  /** An invalidation of this object is on its way to this client. */
  ghost predicate Coming(n: Net, s: Sub) {
    Queued(n, s) || Owed(n, s)
  }

  /** The answer agrees with the authority, or an invalidation of its directory is on its way to the client. */
  ghost predicate Current(w: World, k: ClientID, dir: InodeID, name: string, answer: Option<InodeID>) {
    Binding(w, dir, name) == answer || Coming(w.net, Sub(k, DirObj(dir)))
  }

  function AnswerOf(p: Phase): Option<Option<InodeID>> {
    match p
    case Named(a) => Some(a)
    case Fetched(id, _) => Some(Some(id))
    case Recorded(id, _) => Some(Some(id))
    case Timed(id, _, _) => Some(Some(id))
    case Ready(a) => Some(a)
    case Kept(a) => Some(a)
    case _ => None
  }

  /** A response in flight that the client would still store. */
  ghost predicate Welcome(w: World, l: LookupFlight) {
    l.since == Epoch(ClientOf(w, l.client), DirObj(l.dir))
  }

  ghost predicate FlightOK(w: World, l: LookupFlight) {
    && l.since <= Epoch(ClientOf(w, l.client), DirObj(l.dir))
    && (Welcome(w, l) && Sub(l.client, DirObj(l.dir)) !in w.net.lost && !l.phase.Sent? ==>
          && Sub(l.client, DirObj(l.dir)) in w.net.subs
          && (AnswerOf(l.phase).Some? ==> Current(w, l.client, l.dir, l.name, AnswerOf(l.phase).value)))
  }

  ghost predicate CacheOK(w: World, k: ClientID, dir: InodeID) {
    var c, obj := ClientOf(w, k), DirObj(dir);
    && (Names(c, obj) != map[] || Absent(c, obj) != {} ==> Sub(k, obj) in w.net.subs)
    && (forall name :: name in Names(c, obj) ==> Current(w, k, dir, name, Some(Names(c, obj)[name])))
    && (forall name :: name in Absent(c, obj) ==> Current(w, k, dir, name, None))
  }

  ghost predicate Inv(w: World) {
    && (forall f :: f in w.lookups ==> f < w.issued && FlightOK(w, w.lookups[f]))
    && (forall k: ClientID, dir: InodeID :: Sub(k, DirObj(dir)) !in w.net.lost ==> CacheOK(w, k, dir))
  }

  // --- steps that leave a directory's answers alone ----------------------------------------

  /** One client's view of one directory in two worlds: nothing more stored, nothing less coming. */
  ghost predicate Calm(w: World, w': World, k: ClientID, dir: InodeID) {
    var obj := DirObj(dir);
    var c, c' := ClientOf(w, k), ClientOf(w', k);
    && (Sub(k, obj) in w.net.lost ==> Sub(k, obj) in w'.net.lost) && (Sub(k, obj) in w.net.subs ==> Sub(k, obj) in w'.net.subs)
    && Names(c', obj) == Names(c, obj) && Absent(c', obj) == Absent(c, obj) && Epoch(c', obj) == Epoch(c, obj)
    && (Sub(k, obj) in w.net.subs && Sub(k, obj) !in w'.net.lost ==>
          forall name :: Binding(w', dir, name) == Binding(w, dir, name) || Coming(w'.net, Sub(k, obj)))
    && (Sub(k, obj) in w.net.subs && Sub(k, obj) !in w'.net.lost && Coming(w.net, Sub(k, obj)) ==> Coming(w'.net, Sub(k, obj)))
  }

  lemma CalmCache(w: World, w': World, k: ClientID, dir: InodeID)
    requires Calm(w, w', k, dir) && (Sub(k, DirObj(dir)) !in w.net.lost ==> CacheOK(w, k, dir))
    ensures Sub(k, DirObj(dir)) !in w'.net.lost ==> CacheOK(w', k, dir)
  {
  }

  lemma CalmFlight(w: World, w': World, l: LookupFlight)
    requires Calm(w, w', l.client, l.dir) && FlightOK(w, l)
    ensures FlightOK(w', l)
  {
  }

  /** Calm everywhere, and the lookups are the same. */
  lemma CalmStep(w: World, w': World)
    requires Inv(w) && w'.lookups == w.lookups && w.issued <= w'.issued
    requires forall k: ClientID, dir: InodeID :: Calm(w, w', k, dir)
    ensures Inv(w')
  {
    forall f | f in w'.lookups ensures FlightOK(w', w'.lookups[f]) {
      CalmFlight(w, w', w.lookups[f]);
    }
    forall k: ClientID, dir: InodeID | Sub(k, DirObj(dir)) !in w'.net.lost ensures CacheOK(w', k, dir) {
      CalmCache(w, w', k, dir);
    }
  }

  /** Calm everywhere but for one flight, which is new or further on. */
  lemma FlightStep(w: World, w': World, f: nat, l: LookupFlight)
    requires Inv(w) && w'.lookups == w.lookups[f := l] && w.issued <= w'.issued && f < w'.issued && FlightOK(w', l)
    requires forall k: ClientID, dir: InodeID :: Calm(w, w', k, dir)
    ensures Inv(w')
  {
    forall x | x in w'.lookups ensures FlightOK(w', w'.lookups[x]) {
      if x != f {
        CalmFlight(w, w', w.lookups[x]);
      }
    }
    forall k: ClientID, dir: InodeID | Sub(k, DirObj(dir)) !in w'.net.lost ensures CacheOK(w', k, dir) {
      CalmCache(w, w', k, dir);
    }
  }

  // --- mutations and pushes ------------------------------------------------------------------

  lemma OwedBy(n: Net, j: nat, s: Sub)
    requires j in n.jobs && (s.obj in n.jobs[j].owed || s in n.jobs[j].pushes)
    ensures Coming(n, s)
  {
  }

  /** What another job owes, or what is queued, stays. */
  lemma ComingKept(n: Net, n': Net, s: Sub, but: nat)
    requires Coming(n, s) && n'.queues == n.queues
    requires forall j :: j in n.jobs && j != but ==> j in n'.jobs && n'.jobs[j] == n.jobs[j]
    requires but in n.jobs && (s.obj in n.jobs[but].owed || s in n.jobs[but].pushes) ==> Coming(n', s)
    ensures Coming(n', s)
  {
    if Queued(n, s) {
      assert Queued(n', s);
    } else {
      var j :| j in n.jobs && (s.obj in n.jobs[j].owed || s in n.jobs[j].pushes);
      if j != but {
        OwedBy(n', j, s);
      }
    }
  }

  /** A mutation owes an invalidation for every directory whose bindings it changed. */
  lemma OpenedComing(n: Net, job: nat, keys: set<Obj>, s: Sub)
    requires job !in n.jobs && (Coming(n, s) || s.obj in keys)
    ensures Coming(Opened(n, job, keys), s)
  {
    if s.obj in keys {
      OwedBy(Opened(n, job, keys), job, s);
    } else {
      ComingKept(n, Opened(n, job, keys), s, job);
    }
  }

  lemma GatheredComing(n: Net, job: nat, obj: Obj, s: Sub)
    requires job in n.jobs && Coming(n, s) && s in n.subs
    ensures Coming(Gathered(n, job, obj), s)
  {
    if s.obj in n.jobs[job].owed || s in n.jobs[job].pushes {
      OwedBy(Gathered(n, job, obj), job, s);
    }
    ComingKept(n, Gathered(n, job, obj), s, job);
  }

  lemma EnqueuedIsQueued(n: Net, sub: Sub, e: Event, s: Sub)
    ensures Queued(n, s) ==> Queued(Enqueue(n, sub, e, true), s)
    ensures e.obj == sub.obj ==> Queued(Enqueue(n, sub, e, true), sub)
  {
    var n' := Enqueue(n, sub, e, true);
    assert QueueOf(n', sub.client) == QueueOf(n, sub.client) + [e];
    assert e in QueueOf(n', sub.client);
    if Queued(n, s) {
      var x :| x in QueueOf(n, s.client) && x.obj == s.obj;
      assert x in QueueOf(n', s.client);
    }
  }

  lemma EnqueueKeepsComing(n: Net, sub: Sub, e: Event, accepted: bool, s: Sub)
    requires Coming(n, s)
    ensures Coming(Enqueue(n, sub, e, accepted), s)
  {
    var n' := Enqueue(n, sub, e, accepted);
    if Owed(n, s) {
      assert Owed(n', s);
    } else if accepted {
      EnqueuedIsQueued(n, sub, e, s);
    } else {
      assert Queued(n', s);
    }
  }

  lemma FiredComing(n: Net, job: nat, sub: Sub, s: Sub)
    requires job in n.jobs && Coming(n, s) && s != sub
    ensures Coming(Fired(n, job, sub), s)
  {
    if s.obj in n.jobs[job].owed || s in n.jobs[job].pushes {
      OwedBy(Fired(n, job, sub), job, s);
    }
    ComingKept(n, Fired(n, job, sub), s, job);
  }

  /** Firing a callback puts the event in the queue, or the registration among the lost. */
  lemma PushComing(n: Net, job: nat, sub: Sub, accepted: bool, s: Sub)
    requires job in n.jobs && Coming(n, s) && s !in Enqueue(Fired(n, job, sub), sub, Invalidated(sub.obj), accepted).lost
    ensures Coming(Enqueue(Fired(n, job, sub), sub, Invalidated(sub.obj), accepted), s)
  {
    if s == sub {
      EnqueuedIsQueued(Fired(n, job, sub), sub, Invalidated(sub.obj), s);
    } else {
      FiredComing(n, job, sub, s);
      EnqueueKeepsComing(Fired(n, job, sub), sub, Invalidated(sub.obj), accepted, s);
    }
  }

  /** After a reconnect only what mutations under way still owe the client is coming; the rest is lost. */
  lemma CutComing(n: Net, k: ClientID, s: Sub)
    ensures Coming(Cut(n, k), s) <==> if s.client == k then Owed(n, s) else Coming(n, s)
    ensures s in Cut(n, k).lost <==> s in n.lost || (s.client == k && Queued(n, s))
  {
    var n' := Cut(n, k);
    assert Owed(n', s) <==> Owed(n, s);
    assert QueueOf(n', s.client) == if s.client == k then [] else QueueOf(n, s.client);
    if Queued(n, s) && s.client == k {
      var e :| e in QueueOf(n, k) && e.obj == s.obj;
      assert Sub(k, e.obj) == s;
    }
  }

  lemma CutKeepsComing(n: Net, k: ClientID, s: Sub)
    requires Coming(n, s) && s !in Cut(n, k).lost
    ensures Coming(Cut(n, k), s)
  {
    hide Cut, Owed, Queued;
    CutComing(n, k, s);
  }

  /** Only the net changes: no registration is forgotten, and what was coming still is, unless it is lost. */
  ghost predicate Quiet(n: Net, n': Net) {
    && n.subs <= n'.subs && n.lost <= n'.lost
    && forall s :: s in n.subs && Coming(n, s) && s !in n'.lost ==> Coming(n', s)
  }

  lemma QuietStep(w: World, n: Net)
    requires Inv(w) && Quiet(w.net, n)
    ensures Inv(w.(net := n))
  {
    hide Coming;
    var w' := w.(net := n);
    forall k: ClientID, dir: InodeID ensures Calm(w, w', k, dir) {
      assert forall name :: Binding(w', dir, name) == Binding(w, dir, name);
    }
    CalmStep(w, w');
  }

  lemma MutateKeepsInv(w: World, job: nat, keys: set<Obj>, dentry: Dentries, inode: map<InodeID, InodeRecord>)
    requires Inv(w) && job !in w.net.jobs && Covers(keys, w.dentry, dentry)
    ensures Inv(w.(dentry := dentry, inode := inode, net := Opened(w.net, job, keys)))
  {
    hide Coming;
    var w' := w.(dentry := dentry, inode := inode, net := Opened(w.net, job, keys));
    forall k: ClientID, dir: InodeID ensures Calm(w, w', k, dir) {
      var s := Sub(k, DirObj(dir));
      if Coming(w.net, s) {
        OpenedComing(w.net, job, keys, s);
      }
      forall name ensures Binding(w', dir, name) == Binding(w, dir, name) || Coming(w'.net, s) {
        if Binding(w', dir, name) != Binding(w, dir, name) {
          assert Slot(dir, name) in w.dentry.Keys + dentry.Keys;
          OpenedComing(w.net, job, keys, s);
        }
      }
    }
    CalmStep(w, w');
  }

  /** The pushes of a mutation: collecting the callbacks of an object, firing one, firing a recall, or losing what waits. */
  lemma NetKeepsInv(w: World, a: Action)
    requires Inv(w) && Enabled(w, a) && (a.Collect? || a.Push? || a.PushRecall? || a.Reconnect?)
    ensures Inv(Apply(w, a))
  {
    hide Inv, Coming;
    var n := w.net;
    match a {
      case Collect(job, obj) =>
        forall s | s in n.subs && Coming(n, s) ensures Coming(Gathered(n, job, obj), s) {
          GatheredComing(n, job, obj, s);
        }
        QuietStep(w, Gathered(n, job, obj));
      case Push(job, sub, accepted) =>
        var n' := Enqueue(Fired(n, job, sub), sub, Invalidated(sub.obj), accepted);
        forall s | Coming(n, s) && s !in n'.lost ensures Coming(n', s) {
          PushComing(n, job, sub, accepted, s);
        }
        QuietStep(w, n');
      case PushRecall(sub, recall, accepted) =>
        forall s | Coming(n, s) ensures Coming(Enqueue(n, sub, Recalled(sub.obj, recall), accepted), s) {
          EnqueueKeepsComing(n, sub, Recalled(sub.obj, recall), accepted, s);
        }
        QuietStep(w, Enqueue(n, sub, Recalled(sub.obj, recall), accepted));
      case Reconnect(k) =>
        forall s | Coming(n, s) && s !in Cut(n, k).lost ensures Coming(Cut(n, k), s) {
          CutKeepsComing(n, k, s);
        }
        QuietStep(w, Cut(n, k));
    }
  }

  // --- invalidations ---------------------------------------------------------------------------

  /** One client drops one object; everything else about it is calm. */
  ghost predicate Drops(w: World, w': World, k: ClientID, obj: Obj) {
    && w'.lookups == w.lookups && w'.issued == w.issued && w'.dentry == w.dentry
    && w'.net.subs == w.net.subs && w'.net.lost == w.net.lost
    && w'.clients == w.clients[k := Invalidate(ClientOf(w, k), obj)]
    && forall s :: Coming(w.net, s) && s != Sub(k, obj) ==> Coming(w'.net, s)
  }

  lemma DropsCalm(w: World, w': World, k: ClientID, obj: Obj, x: ClientID, dir: InodeID)
    requires Drops(w, w', k, obj) && (x != k || DirObj(dir) != obj)
    ensures Calm(w, w', x, dir)
  {
    assert forall name :: Binding(w', dir, name) == Binding(w, dir, name);
    if x == k {
      InvalidateDrops(ClientOf(w, k), obj, DirObj(dir), w.now);
    }
  }

  lemma DropsKeepInv(w: World, w': World, k: ClientID, obj: Obj)
    requires Inv(w) && Drops(w, w', k, obj)
    ensures Inv(w')
  {
    InvalidateDrops(ClientOf(w, k), obj, obj, w.now);
    forall f | f in w'.lookups ensures FlightOK(w', w'.lookups[f]) {
      var l := w.lookups[f];
      if l.client != k || DirObj(l.dir) != obj {
        DropsCalm(w, w', k, obj, l.client, l.dir);
        CalmFlight(w, w', l);
      }
    }
    forall x: ClientID, dir: InodeID | Sub(x, DirObj(dir)) !in w'.net.lost ensures CacheOK(w', x, dir) {
      if x != k || DirObj(dir) != obj {
        DropsCalm(w, w', k, obj, x, dir);
        CalmCache(w, w', x, dir);
      }
    }
  }

  lemma TakenComing(n: Net, k: ClientID, s: Sub)
    requires QueueOf(n, k) != [] && Coming(n, s) && s != Sub(k, QueueOf(n, k)[0].obj)
    ensures Coming(Taken(n, k), s)
  {
    var n' := Taken(n, k);
    if Owed(n, s) {
      assert Owed(n', s);
    } else {
      var e :| e in QueueOf(n, s.client) && e.obj == s.obj;
      assert s.client == k ==> QueueOf(n, k) == [QueueOf(n, k)[0]] + QueueOf(n', k);
      assert e in QueueOf(n', s.client);
    }
  }

  lemma DeliverKeepsInv(w: World, k: ClientID)
    requires Inv(w) && QueueOf(w.net, k) != []
    ensures Inv(Handle(w, k))
  {
    hide Inv, Coming;
    var obj := QueueOf(w.net, k)[0].obj;
    forall s | Coming(w.net, s) && s != Sub(k, obj) ensures Coming(Taken(w.net, k), s) {
      TakenComing(w.net, k, s);
    }
    DropsKeepInv(w, Handle(w, k), k, obj);
  }

  lemma DropOwnKeepsInv(w: World, k: ClientID, obj: Obj)
    requires Inv(w)
    ensures Inv(SetClient(w, k, Invalidate(ClientOf(w, k), obj)))
  {
    hide Inv, Coming;
    DropsKeepInv(w, SetClient(w, k, Invalidate(ClientOf(w, k), obj)), k, obj);
  }

  // --- lookups ---------------------------------------------------------------------------------

  /** Nothing is pushed, delivered or changed at the authority. */
  ghost predicate Aside(w: World, w': World) {
    && w'.net.queues == w.net.queues && w'.net.jobs == w.net.jobs && w.net.subs <= w'.net.subs && w.net.lost <= w'.net.lost
    && w'.dentry == w.dentry && w.issued <= w'.issued
  }

  ghost predicate SameDirs(c: Client, c': Client) {
    c'.dentries == c.dentries && c'.negatives == c.negatives && c'.epochs == c.epochs
  }

  lemma AsideComing(w: World, w': World, s: Sub)
    requires Aside(w, w')
    ensures Coming(w'.net, s) <==> Coming(w.net, s)
  {
    assert QueueOf(w'.net, s.client) == QueueOf(w.net, s.client);
    assert Owed(w'.net, s) <==> Owed(w.net, s);
  }

  lemma AsideCalm(w: World, w': World, k: ClientID, dir: InodeID)
    requires Aside(w, w') && SameDirs(ClientOf(w, k), ClientOf(w', k))
    ensures Calm(w, w', k, dir)
  {
    AsideComing(w, w', Sub(k, DirObj(dir)));
    assert forall name :: Binding(w', dir, name) == Binding(w, dir, name);
  }

  lemma AsideCurrent(w: World, w': World, k: ClientID, dir: InodeID, name: string, answer: Option<InodeID>)
    requires Aside(w, w') && Current(w, k, dir, name, answer)
    ensures Current(w', k, dir, name, answer)
  {
    AsideComing(w, w', Sub(k, DirObj(dir)));
    assert Binding(w', dir, name) == Binding(w, dir, name);
  }

  lemma AsideStep(w: World, w': World)
    requires Inv(w) && Aside(w, w') && w'.lookups == w.lookups
    requires forall k: ClientID :: SameDirs(ClientOf(w, k), ClientOf(w', k))
    ensures Inv(w')
  {
    forall k: ClientID, dir: InodeID ensures Calm(w, w', k, dir) {
      AsideCalm(w, w', k, dir);
    }
    CalmStep(w, w');
  }

  /** A flight moves on without changing its answer. */
  lemma AsideFlight(w: World, w': World, f: nat, l: LookupFlight)
    requires Inv(w) && Aside(w, w') && f < w'.issued && w'.lookups == w.lookups[f := l] && FlightOK(w', l)
    requires forall k: ClientID :: SameDirs(ClientOf(w, k), ClientOf(w', k))
    ensures Inv(w')
  {
    forall k: ClientID, dir: InodeID ensures Calm(w, w', k, dir) {
      AsideCalm(w, w', k, dir);
    }
    FlightStep(w, w', f, l);
  }

  lemma SamePhaseAnswer(w: World, w': World, l: LookupFlight, phase: Phase)
    requires FlightOK(w, l) && Aside(w, w') && SameDirs(ClientOf(w, l.client), ClientOf(w', l.client))
    requires !l.phase.Sent? && AnswerOf(phase) == AnswerOf(l.phase)
    ensures FlightOK(w', l.(phase := phase))
  {
    if AnswerOf(phase).Some? && Current(w, l.client, l.dir, l.name, AnswerOf(phase).value) {
      AsideCurrent(w, w', l.client, l.dir, l.name, AnswerOf(phase).value);
    }
  }

  lemma InvFlight(w: World, f: nat)
    requires Inv(w) && f in w.lookups
    ensures FlightOK(w, w.lookups[f]) && f < w.issued
  {
  }

  lemma AskKeepsInv(w: World, a: Action)
    requires Inv(w) && a.Ask?
    ensures Inv(Apply(w, a))
  {
    hide Inv, Calm, Coming;
    var w' := Apply(w, a);
    AsideFlight(w, w', w.issued, w'.lookups[w.issued]);
  }

  lemma GrantedOK(w: World, w': World, l: LookupFlight)
    requires FlightOK(w, l) && w'.clients == w.clients && (Sub(l.client, DirObj(l.dir)) in w'.net.subs || Sub(l.client, DirObj(l.dir)) in w'.net.lost)
    ensures FlightOK(w', l.(phase := Granted))
  {
  }

  lemma RegisterNet(n: Net, sub: Sub, accepted: bool)
    ensures var n' := Register(n, sub, accepted);
            && n'.queues == n.queues && n'.jobs == n.jobs && n.subs <= n'.subs && n.lost <= n'.lost
            && (sub in n'.subs || sub in n'.lost)
  {
  }

  /** The registration comes before the answer is read. */
  lemma GrantDirKeepsInv(w: World, f: nat, accepted: bool)
    requires Inv(w) && f in w.lookups
    ensures Inv(SetPhase(w, f, Granted).(net := Register(w.net, Sub(w.lookups[f].client, DirObj(w.lookups[f].dir)), accepted)))
  {
    hide Inv, Calm, Coming, FlightOK, Register;
    RegisterNet(w.net, Sub(w.lookups[f].client, DirObj(w.lookups[f].dir)), accepted);
    var w' := SetPhase(w, f, Granted).(net := Register(w.net, Sub(w.lookups[f].client, DirObj(w.lookups[f].dir)), accepted));
    InvFlight(w, f);
    GrantedOK(w, w', w.lookups[f]);
    AsideFlight(w, w', f, w'.lookups[f]);
  }

  lemma ReadNameKeepsInv(w: World, a: Action)
    requires Inv(w) && a.ReadName? && Enabled(w, a)
    ensures Inv(Apply(w, a))
  {
    hide Inv, Calm, Coming;
    var w' := Apply(w, a);
    var l := w'.lookups[a.flight];
    InvFlight(w, a.flight);
    assert Binding(w', l.dir, l.name) == AnswerOf(l.phase).value;
    AsideFlight(w, w', a.flight, l);
  }

  /** The record's half of a Lookup never touches what is known about directories. */
  lemma RecordKeepsInv(w: World, a: Action)
    requires Inv(w) && Enabled(w, a) && (a.ReadRecord? || a.GrantRecord? || a.ReadEpoch?)
    ensures Inv(Apply(w, a))
  {
    hide Inv, Calm, Coming, FlightOK;
    var w' := Apply(w, a);
    InvFlight(w, a.flight);
    SamePhaseAnswer(w, w', w.lookups[a.flight], w'.lookups[a.flight].phase);
    AsideFlight(w, w', a.flight, w'.lookups[a.flight]);
  }

  lemma StoreSameDirs(w: World, k: ClientID, obj: Obj, rec: InodeRecord, l: Lease, since: nat, now: Time, x: ClientID)
    ensures SameDirs(ClientOf(w, x), ClientOf(SetClient(w, k, Store(ClientOf(w, k), obj, rec, l, since, now)), x))
  {
  }

  lemma KeepRecordKeepsInv(w: World, a: Action)
    requires Inv(w) && a.KeepRecord? && Enabled(w, a)
    ensures Inv(Apply(w, a))
  {
    hide Inv, Calm, Coming, FlightOK, SameDirs, Store;
    var w', l := Apply(w, a), w.lookups[a.flight];
    InvFlight(w, a.flight);
    forall x: ClientID ensures SameDirs(ClientOf(w, x), ClientOf(w', x)) {
      StoreSameDirs(w, l.client, InoObj(l.phase.id), l.phase.rec, LeaseOf(w), l.phase.epoch, w.now, x);
    }
    SamePhaseAnswer(w, w', l, w'.lookups[a.flight].phase);
    AsideFlight(w, w', a.flight, w'.lookups[a.flight]);
  }

  lemma KeepLeaseKeepsInv(w: World, a: Action)
    requires Inv(w) && a.KeepLease? && Enabled(w, a)
    ensures Inv(Apply(w, a))
  {
    hide Inv, Calm, Coming, FlightOK, SameDirs, Store;
    var w', l := Apply(w, a), w.lookups[a.flight];
    InvFlight(w, a.flight);
    forall x: ClientID ensures SameDirs(ClientOf(w, x), ClientOf(w', x)) {
      StoreSameDirs(w, l.client, DirObj(l.dir), DIR_STUB, LeaseOf(w), l.since, w.now, x);
    }
    SamePhaseAnswer(w, w', l, w'.lookups[a.flight].phase);
    AsideFlight(w, w', a.flight, w'.lookups[a.flight]);
  }

  /** The binding is stored: it was current when it was read, or an invalidation is coming. */
  lemma KeepNameKeepsInv(w: World, a: Action)
    requires Inv(w) && a.KeepName? && Enabled(w, a)
    ensures Inv(Apply(w, a))
  {
    hide Coming, FlightOK, CacheOK, StoreName;
    var w' := Apply(w, a);
    var l := w.lookups[a.flight];
    forall f | f in w'.lookups ensures FlightOK(w', w'.lookups[f]) {
      StoreNameEpochs(w, l, w.lookups[f].client);
      KeptNameFlight(w, w', w.lookups[f]);
    }
    forall k: ClientID, dir: InodeID | Sub(k, DirObj(dir)) !in w'.net.lost ensures CacheOK(w', k, dir) {
      if k == l.client && dir == l.dir {
        KeptNameCache(w, w', l);
      } else {
        KeptNameElsewhere(w, w', l, k, dir);
      }
    }
  }

  lemma StoreNameEpochs(w: World, l: LookupFlight, x: ClientID)
    requires l.phase.Kept?
    ensures var c := StoreName(ClientOf(w, l.client), l.dir, l.name, l.phase.answer, l.since);
            ClientOf(SetClient(w, l.client, c), x).epochs == ClientOf(w, x).epochs
  {
  }

  lemma KeptNameFlight(w: World, w': World, l: LookupFlight)
    requires FlightOK(w, l) && Aside(w, w') && w'.net.subs == w.net.subs && w'.net.lost == w.net.lost
    requires ClientOf(w', l.client).epochs == ClientOf(w, l.client).epochs
    ensures FlightOK(w', l)
  {
    AsideComing(w, w', Sub(l.client, DirObj(l.dir)));
    if AnswerOf(l.phase).Some? {
      assert Binding(w', l.dir, l.name) == Binding(w, l.dir, l.name);
    }
  }

  lemma KeptNameCache(w: World, w': World, l: LookupFlight)
    requires FlightOK(w, l) && l.phase.Kept? && Aside(w, w') && w'.net.subs == w.net.subs && Sub(l.client, DirObj(l.dir)) !in w.net.lost
    requires ClientOf(w', l.client) == StoreName(ClientOf(w, l.client), l.dir, l.name, l.phase.answer, l.since)
    requires CacheOK(w, l.client, l.dir)
    ensures CacheOK(w', l.client, l.dir)
  {
    var c, c', obj := ClientOf(w, l.client), ClientOf(w', l.client), DirObj(l.dir);
    forall name | name in Names(c', obj) ensures Current(w', l.client, l.dir, name, Some(Names(c', obj)[name])) {
      if Welcome(w, l) && l.phase.answer.Some? && name == l.name {
        assert AnswerOf(l.phase).value == Some(Names(c', obj)[name]);
      } else {
        assert name in Names(c, obj) && Names(c, obj)[name] == Names(c', obj)[name];
      }
      AsideCurrent(w, w', l.client, l.dir, name, Some(Names(c', obj)[name]));
    }
    forall name | name in Absent(c', obj) ensures Current(w', l.client, l.dir, name, None) {
      assert Current(w, l.client, l.dir, name, None);
      AsideCurrent(w, w', l.client, l.dir, name, None);
    }
  }

  lemma KeptNameElsewhere(w: World, w': World, l: LookupFlight, k: ClientID, dir: InodeID)
    requires Aside(w, w') && w'.net.subs == w.net.subs && CacheOK(w, k, dir) && (k != l.client || dir != l.dir) && l.phase.Kept?
    requires w'.clients == w.clients[l.client := StoreName(ClientOf(w, l.client), l.dir, l.name, l.phase.answer, l.since)]
    ensures CacheOK(w', k, dir)
  {
    hide StoreName, Coming;
    StoreNameElsewhere(w, l, k, dir);
    AsideComing(w, w', Sub(k, DirObj(dir)));
    assert forall name :: Binding(w', dir, name) == Binding(w, dir, name);
  }

  lemma StoreNameElsewhere(w: World, l: LookupFlight, k: ClientID, dir: InodeID)
    requires l.phase.Kept? && (k != l.client || dir != l.dir)
    ensures var c := StoreName(ClientOf(w, l.client), l.dir, l.name, l.phase.answer, l.since);
            var c' := ClientOf(SetClient(w, l.client, c), k);
            Names(c', DirObj(dir)) == Names(ClientOf(w, k), DirObj(dir)) && Absent(c', DirObj(dir)) == Absent(ClientOf(w, k), DirObj(dir))
  {
  }

  lemma KeepInodeKeepsInv(w: World, a: Action)
    requires Inv(w) && a.KeepInode? && Enabled(w, a)
    ensures Inv(Apply(w, a))
  {
    hide Inv, Calm, Coming, FlightOK, SameDirs, Store;
    var g := w.gets[a.flight];
    forall x: ClientID ensures SameDirs(ClientOf(w, x), ClientOf(Apply(w, a), x)) {
      StoreSameDirs(w, g.client, InoObj(g.id), g.answer.value, LeaseOf(w), g.since, w.now, x);
    }
    AsideStep(w, Apply(w, a));
  }

  lemma OtherKeepsInv(w: World, a: Action)
    requires Inv(w) && Enabled(w, a) && (a.Advance? || a.Recall? || a.SendAck? || a.List? || a.AskInode? || a.ReadInode? || a.GrantInode?)
    ensures Inv(Apply(w, a))
  {
    hide Inv, Calm, Coming;
    AsideStep(w, Apply(w, a));
  }

  lemma StepKeepsInv(w: World, a: Action)
    requires Inv(w) && Enabled(w, a)
    ensures Inv(Apply(w, a))
  {
    hide Inv;
    match a {
      case Mutate(job, keys, dentry, inode) => MutateKeepsInv(w, job, keys, dentry, inode);
      case Collect(_, _) => NetKeepsInv(w, a);
      case Push(_, _, _) => NetKeepsInv(w, a);
      case PushRecall(_, _, _) => NetKeepsInv(w, a);
      case Reconnect(_) => NetKeepsInv(w, a);
      case Deliver(k) => DeliverKeepsInv(w, k);
      case DropOwn(k, obj) => DropOwnKeepsInv(w, k, obj);
      case Ask(_, _, _) => AskKeepsInv(w, a);
      case GrantDir(f, accepted) => GrantDirKeepsInv(w, f, accepted);
      case ReadName(_) => ReadNameKeepsInv(w, a);
      case ReadRecord(_) => RecordKeepsInv(w, a);
      case GrantRecord(_, _) => RecordKeepsInv(w, a);
      case ReadEpoch(_) => RecordKeepsInv(w, a);
      case KeepRecord(_) => KeepRecordKeepsInv(w, a);
      case KeepLease(_) => KeepLeaseKeepsInv(w, a);
      case KeepInode(_) => KeepInodeKeepsInv(w, a);
      case KeepName(_) => KeepNameKeepsInv(w, a);
      case _ => OtherKeepsInv(w, a);
    }
  }

  // --- runs --------------------------------------------------------------------------------------

  /** The worlds of a run, each reached from the one before by an enabled action. */
  ghost predicate IsRun(run: seq<World>, acts: seq<Action>) {
    && |run| == |acts| + 1
    && forall i :: 0 <= i < |acts| ==> Step(run[i], acts[i], run[i + 1])
  }

  /** No client holds anything and nothing is under way. */
  ghost predicate Initial(w: World) {
    w.clients == map[] && w.lookups == map[] && w.gets == map[] && w.net == Net({}, map[], map[], {}) && w.acks == {}
    && w.debts == {}
  }

  lemma {:induction false} RunKeepsInv(run: seq<World>, acts: seq<Action>, n: nat)
    requires IsRun(run, acts) && n < |run| && Initial(run[0])
    ensures Inv(run[n])
  {
    if n > 0 {
      RunKeepsInv(run, acts, n - 1);
      assert Step(run[n - 1], acts[n - 1], run[n - 1 + 1]);
      StepKeepsInv(run[n - 1], acts[n - 1]);
    }
  }

  /**
   Directory coherence: in every interleaving, as long as no push about a directory to a client was dropped and its
   registration not refused, what that client would answer from its cache about a name there, found or absent, is
   what the authority says, or an invalidation of the directory is on its way to it. That holds of the stored binding
   by itself, so it does not matter that the client reads the binding and the inode's record in two sections.
   */
  lemma {:induction false} DirectoryCoherence(run: seq<World>, acts: seq<Action>, n: nat, k: ClientID, dir: InodeID, name: string)
    requires IsRun(run, acts) && n < |run| && Initial(run[0]) && Sub(k, DirObj(dir)) !in run[n].net.lost
    ensures var ino := CachedDentry(ClientOf(run[n], k), dir, name, run[n].now);
            ino.Some? ==> Binding(run[n], dir, name) == ino || Coming(run[n].net, Sub(k, DirObj(dir)))
    ensures var names := Names(ClientOf(run[n], k), DirObj(dir));
            name in names ==> Binding(run[n], dir, name) == Some(names[name]) || Coming(run[n].net, Sub(k, DirObj(dir)))
    ensures CachedNegative(ClientOf(run[n], k), dir, name, run[n].now) ==>
              Binding(run[n], dir, name) == None || Coming(run[n].net, Sub(k, DirObj(dir)))
  {
    RunKeepsInv(run, acts, n);
    assert CacheOK(run[n], k, dir);
  }
}
