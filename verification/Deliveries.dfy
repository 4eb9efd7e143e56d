/** What clients are told: every event waiting for a client has a cause in the run, and the client had asked for it. */
module Deliveries {
  import opened Base
  import opened Namespace
  import opened LeaseCache
  import opened Protocol

  /** Some mutation of the run bumped this object. */
  ghost predicate Bumped(acts: seq<Action>, obj: Obj) {
    exists m :: 0 <= m < |acts| && acts[m].Mutate? && obj in acts[m].keys
  }

  /** The client's Readdir, Lookup or GetInode reaches the authority and asks to be told of this object. */
  ghost predicate Asks(w: World, a: Action, s: Sub) {
    || (a.List? && s == Sub(a.client, DirObj(a.dir)))
    || (a.GrantDir? && a.flight in w.lookups && s == Sub(w.lookups[a.flight].client, DirObj(w.lookups[a.flight].dir)))
    || (a.GrantRecord? && a.flight in w.lookups && w.lookups[a.flight].phase.Fetched?
        && s == Sub(w.lookups[a.flight].client, InoObj(w.lookups[a.flight].phase.id)))
    || (a.GrantInode? && a.flight in w.gets && s == Sub(w.gets[a.flight].client, InoObj(w.gets[a.flight].id)))
  }

  /** And there is room for it. */
  ghost predicate Registers(w: World, a: Action, s: Sub) {
    Asks(w, a, s) && a.accepted
  }

  ghost predicate Caused(acts: seq<Action>, n: Net, k: ClientID, e: Event) {
    && Sub(k, e.obj) in n.subs + n.lost
    && match e
       case Invalidated(obj) => Sub(k, obj) in n.subs && Bumped(acts, obj)
       case Recalled(obj, recall) => PushRecall(Sub(k, obj), recall, true) in acts
  }

  ghost predicate JobCaused(acts: seq<Action>, n: Net, j: Job) {
    && (forall obj :: obj in j.owed ==> Bumped(acts, obj))
    && (forall s :: s in j.pushes ==> s in n.subs && Bumped(acts, s.obj))
  }

  ghost predicate AllCaused(acts: seq<Action>, n: Net) {
    && (forall j :: j in n.jobs ==> JobCaused(acts, n, n.jobs[j]))
    && (forall k: ClientID, i :: 0 <= i < |QueueOf(n, k)| ==> Caused(acts, n, k, QueueOf(n, k)[i]))
  }

  lemma BumpedMore(acts: seq<Action>, a: Action, obj: Obj)
    requires Bumped(acts, obj)
    ensures Bumped(acts + [a], obj)
  {
    var m :| 0 <= m < |acts| && acts[m].Mutate? && obj in acts[m].keys;
    assert (acts + [a])[m] == acts[m];
  }

  lemma BumpedNow(acts: seq<Action>, a: Action, obj: Obj)
    requires a.Mutate? && obj in a.keys
    ensures Bumped(acts + [a], obj)
  {
    assert (acts + [a])[|acts|] == a;
  }

  lemma JobCausedMore(acts: seq<Action>, a: Action, n: Net, n': Net, j: Job)
    requires JobCaused(acts, n, j) && n.subs <= n'.subs
    ensures JobCaused(acts + [a], n', j)
  {
    hide Bumped;
    forall obj | obj in j.owed ensures Bumped(acts + [a], obj) { BumpedMore(acts, a, obj); }
    forall s | s in j.pushes ensures Bumped(acts + [a], s.obj) { BumpedMore(acts, a, s.obj); }
  }

  lemma CausedMore(acts: seq<Action>, a: Action, n: Net, n': Net, k: ClientID, e: Event)
    requires Caused(acts, n, k, e) && n.subs <= n'.subs && n.lost <= n'.lost
    ensures Caused(acts + [a], n', k, e)
  {
    hide Bumped;
    if e.Invalidated? { BumpedMore(acts, a, e.obj); }
  }

  /** Steps that add neither an event nor a callback. */
  lemma QuietCaused(acts: seq<Action>, a: Action, n: Net, n': Net)
    requires AllCaused(acts, n) && n.subs <= n'.subs && n.lost <= n'.lost && n'.jobs == n.jobs
    requires forall k: ClientID, i :: 0 <= i < |QueueOf(n', k)| ==> QueueOf(n', k)[i] in QueueOf(n, k)
    ensures AllCaused(acts + [a], n')
  {
    hide Caused, JobCaused, QueueOf;
    forall j | j in n'.jobs ensures JobCaused(acts + [a], n', n'.jobs[j]) { JobCausedMore(acts, a, n, n', n.jobs[j]); }
    forall k: ClientID, i | 0 <= i < |QueueOf(n', k)| ensures Caused(acts + [a], n', k, QueueOf(n', k)[i]) {
      assert QueueOf(n', k)[i] in QueueOf(n, k);
      CausedMore(acts, a, n, n', k, QueueOf(n', k)[i]);
    }
  }

  /** One event more, and what remains of the jobs. */
  lemma EnqueueCaused(acts: seq<Action>, n: Net, s: Sub, e: Event, accepted: bool)
    requires AllCaused(acts, n) && e.obj == s.obj && (accepted ==> Caused(acts, n, s.client, e))
    ensures AllCaused(acts, Enqueue(n, s, e, accepted))
  {
    hide Bumped;
    var n' := Enqueue(n, s, e, accepted);
    forall j | j in n'.jobs ensures JobCaused(acts, n', n'.jobs[j]) {}
    forall k: ClientID, i | 0 <= i < |QueueOf(n', k)| ensures Caused(acts, n', k, QueueOf(n', k)[i]) {
      if i < |QueueOf(n, k)| {
        assert QueueOf(n', k)[i] == QueueOf(n, k)[i];
        assert Caused(acts, n, k, QueueOf(n, k)[i]);
      }
    }
  }

  lemma SameJobs(acts: seq<Action>, a: Action, n: Net, n': Net, job: nat)
    requires AllCaused(acts, n) && n'.subs == n.subs && n'.lost == n.lost && n'.queues == n.queues
    requires job in n'.jobs && n'.jobs == n.jobs[job := n'.jobs[job]] && JobCaused(acts + [a], n', n'.jobs[job])
    ensures AllCaused(acts + [a], n')
  {
    hide Caused, JobCaused;
    forall j | j in n'.jobs ensures JobCaused(acts + [a], n', n'.jobs[j]) {
      if j != job { JobCausedMore(acts, a, n, n', n.jobs[j]); }
    }
    forall k: ClientID, i | 0 <= i < |QueueOf(n', k)| ensures Caused(acts + [a], n', k, QueueOf(n', k)[i]) {
      assert QueueOf(n', k) == QueueOf(n, k);
      CausedMore(acts, a, n, n', k, QueueOf(n, k)[i]);
    }
  }

  lemma MutateCaused(acts: seq<Action>, w: World, a: Action, w': World)
    requires Step(w, a, w') && a.Mutate? && AllCaused(acts, w.net)
    ensures AllCaused(acts + [a], w'.net)
  {
    hide Bumped, AllCaused;
    forall obj | obj in a.keys ensures Bumped(acts + [a], obj) { BumpedNow(acts, a, obj); }
    SameJobs(acts, a, w.net, w'.net, a.job);
  }

  lemma CollectCaused(acts: seq<Action>, w: World, a: Action, w': World)
    requires Step(w, a, w') && a.Collect? && AllCaused(acts, w.net)
    ensures AllCaused(acts + [a], w'.net)
  {
    hide Bumped, Caused;
    var j := w.net.jobs[a.job];
    JobCausedMore(acts, a, w.net, w'.net, j);
    SameJobs(acts, a, w.net, w'.net, a.job);
  }

  lemma PushCaused(acts: seq<Action>, w: World, a: Action, w': World)
    requires Step(w, a, w') && a.Push? && AllCaused(acts, w.net)
    ensures AllCaused(acts + [a], w'.net)
  {
    hide Bumped;
    var mid := Fired(w.net, a.job, a.sub);
    JobCausedMore(acts, a, w.net, mid, w.net.jobs[a.job]);
    SameJobs(acts, a, w.net, mid, a.job);
    EnqueueCaused(acts + [a], mid, a.sub, Invalidated(a.sub.obj), a.accepted);
  }

  lemma RecallCaused(acts: seq<Action>, w: World, a: Action, w': World)
    requires Step(w, a, w') && a.PushRecall? && AllCaused(acts, w.net)
    ensures AllCaused(acts + [a], w'.net)
  {
    hide AllCaused;
    QuietCaused(acts, a, w.net, w.net);
    assert a in acts + [a];
    EnqueueCaused(acts + [a], w.net, a.sub, Recalled(a.sub.obj, a.recall), a.accepted);
  }

  lemma OtherCaused(acts: seq<Action>, w: World, a: Action, w': World)
    requires Step(w, a, w') && !a.Mutate? && !a.Collect? && !a.Push? && !a.PushRecall? && AllCaused(acts, w.net)
    ensures AllCaused(acts + [a], w'.net)
  {
    hide AllCaused, Store, StoreName, Invalidate, Binding;
    QuietCaused(acts, a, w.net, w'.net);
  }

  lemma StepCaused(acts: seq<Action>, w: World, a: Action, w': World)
    requires Step(w, a, w') && AllCaused(acts, w.net)
    ensures AllCaused(acts + [a], w'.net)
  {
    hide Step, AllCaused;
    if a.Mutate? { MutateCaused(acts, w, a, w'); }
    else if a.Collect? { CollectCaused(acts, w, a, w'); }
    else if a.Push? { PushCaused(acts, w, a, w'); }
    else if a.PushRecall? { RecallCaused(acts, w, a, w'); }
    else { OtherCaused(acts, w, a, w'); }
  }

  lemma {:induction false} RunCaused(run: seq<World>, acts: seq<Action>, n: nat)
    requires IsRun(run, acts) && n < |run| && Initial(run[0])
    ensures AllCaused(acts[..n], run[n].net)
  {
    hide Step, AllCaused;
    if n == 0 {
      assert AllCaused([], Net({}, map[], map[], {})) by { EmptyCaused(); }
    } else {
      RunCaused(run, acts, n - 1);
      assert Step(run[n - 1], acts[n - 1], run[n - 1 + 1]);
      StepCaused(acts[..n - 1], run[n - 1], acts[n - 1], run[n]);
      assert acts[..n] == acts[..n - 1] + [acts[n - 1]];
    }
  }

  lemma EmptyCaused()
    ensures AllCaused([], Net({}, map[], map[], {}))
  {
  }

  // --- registrations ---------------------------------------------------------------------------------

  lemma SubOfStep(w: World, a: Action, w': World, s: Sub)
    requires Step(w, a, w') && s in w'.net.subs
    ensures s in w.net.subs || Registers(w, a, s)
  {
    hide Store, StoreName, Invalidate, Binding, Epoch, QueueOf;
  }

  /** Who is registered asked for it and there was room. */
  lemma {:induction false} RegisteredAt(run: seq<World>, acts: seq<Action>, n: nat, s: Sub) returns (m: nat)
    requires IsRun(run, acts) && n < |run| && Initial(run[0]) && s in run[n].net.subs
    ensures m < n && Registers(run[m], acts[m], s)
  {
    hide Step, Registers;
    m := n - 1;
    assert Step(run[m], acts[m], run[m + 1]);
    SubOfStep(run[m], acts[m], run[n], s);
    if !Registers(run[m], acts[m], s) {
      m := RegisteredAt(run, acts, n - 1, s);
    }
  }

  /** What a push, a recall or a reconnect loses was for a client that had asked for it. */
  lemma LostOfNet(acts: seq<Action>, w: World, a: Action, w': World, s: Sub)
    requires Step(w, a, w') && AllCaused(acts, w.net) && s in w'.net.lost && (a.Push? || a.PushRecall? || a.Reconnect?)
    ensures s in w.net.subs + w.net.lost
  {
    hide Bumped;
    match a
    case Push(job, sub, _) => assert JobCaused(acts, w.net, w.net.jobs[job]);
    case PushRecall(_, _, _) =>
    case Reconnect(k) =>
      if s !in w.net.lost {
        var i :| 0 <= i < |QueueOf(w.net, k)| && s == Sub(k, QueueOf(w.net, k)[i].obj);
        assert Caused(acts, w.net, k, QueueOf(w.net, k)[i]);
      }
  }

  lemma LostOfOther(w: World, a: Action, w': World, s: Sub)
    requires Step(w, a, w') && s in w'.net.lost && !(a.Push? || a.PushRecall? || a.Reconnect?)
    ensures s in w.net.lost || Asks(w, a, s)
  {
    hide Store, StoreName, Invalidate, Binding, Enqueue, Cut;
  }

  /** Whoever is registered, was refused or had a push lost had asked for it. */
  lemma {:induction false} AskedAt(run: seq<World>, acts: seq<Action>, n: nat, s: Sub) returns (m: nat)
    requires IsRun(run, acts) && n < |run| && Initial(run[0]) && s in run[n].net.subs + run[n].net.lost
    ensures m < n && Asks(run[m], acts[m], s)
  {
    hide Step, Asks, AllCaused;
    m := n - 1;
    assert Step(run[m], acts[m], run[m + 1]);
    RunCaused(run, acts, m);
    if s in run[n].net.subs {
      SubOfStep(run[m], acts[m], run[n], s);
    } else if acts[m].Push? || acts[m].PushRecall? || acts[m].Reconnect? {
      LostOfNet(acts[..m], run[m], acts[m], run[n], s);
    } else {
      LostOfOther(run[m], acts[m], run[n], s);
    }
    if !Asks(run[m], acts[m], s) {
      m := AskedAt(run, acts, n - 1, s);
    }
  }

  /**
   In every run a client is told only what happened and what it asked to be told: an invalidation waiting for it is of an
   object that some mutation bumped and it was registered for, a recall is one that was pushed to it, and it had asked,
   though perhaps been refused.
   */
  lemma ToldWithCause(run: seq<World>, acts: seq<Action>, n: nat, k: ClientID, e: Event) returns (m: nat)
    requires IsRun(run, acts) && n < |run| && Initial(run[0]) && e in QueueOf(run[n].net, k)
    ensures m < n && if e.Invalidated? then Registers(run[m], acts[m], Sub(k, e.obj)) else Asks(run[m], acts[m], Sub(k, e.obj))
    ensures match e
            case Invalidated(obj) => exists i :: 0 <= i < n && acts[i].Mutate? && obj in acts[i].keys
            case Recalled(obj, recall) => exists i :: 0 <= i < n && acts[i] == PushRecall(Sub(k, obj), recall, true)
  {
    hide IsRun, Initial, Registers, Asks;
    LengthOfRun(run, acts);
    RunCaused(run, acts, n);
    var i :| 0 <= i < |QueueOf(run[n].net, k)| && QueueOf(run[n].net, k)[i] == e;
    assert Caused(acts[..n], run[n].net, k, QueueOf(run[n].net, k)[i]);
    match e {
      case Invalidated(obj) =>
        m := RegisteredAt(run, acts, n, Sub(k, obj));
        var j :| 0 <= j < |acts[..n]| && acts[..n][j].Mutate? && obj in acts[..n][j].keys;
        assert acts[j] == acts[..n][j];
      case Recalled(obj, recall) =>
        m := AskedAt(run, acts, n, Sub(k, obj));
        var j :| 0 <= j < |acts[..n]| && acts[..n][j] == PushRecall(Sub(k, obj), recall, true);
        assert acts[j] == acts[..n][j];
    }
  }

  lemma LengthOfRun(run: seq<World>, acts: seq<Action>)
    requires IsRun(run, acts)
    ensures |run| == |acts| + 1
  {
  }
}
