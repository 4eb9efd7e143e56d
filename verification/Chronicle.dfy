/**
 The network as the run made it: who is registered, what waits, what is owed and what was lost, each said exactly by what
 has happened and what has not happened since.
 */
module Chronicle {
  import opened Base
  import opened Namespace
  import opened LeaseCache
  import opened Protocol
  import opened Deliveries

  // --- registrations -----------------------------------------------------------------------

  lemma SubStep(w: World, a: Action, w': World, s: Sub)
    requires Step(w, a, w')
    ensures s in w'.net.subs <==> s in w.net.subs || Registers(w, a, s)
  {
    hide Step;
    if OfRegister(a) {
      RegisterNetStep(w, a, w', s);
    } else {
      SubsElsewhere(w, a, w');
    }
  }

  lemma RegisterNetStep(w: World, a: Action, w': World, s: Sub)
    requires Step(w, a, w') && OfRegister(a)
    ensures s in w'.net.subs <==> s in w.net.subs || Registers(w, a, s)
    ensures s in w'.net.lost <==> s in w.net.lost || (Asks(w, a, s) && !a.accepted && s !in w.net.subs)
  {
    hide Store, StoreName, Invalidate, Binding, Epoch, QueueOf, Covers, LeaseOf, Enqueue, Handle, Cut, Fired, Opened, Gathered;
  }

  lemma SubsElsewhere(w: World, a: Action, w': World)
    requires Step(w, a, w') && !OfRegister(a)
    ensures w'.net.subs == w.net.subs
  {
    hide Store, StoreName, Invalidate, Binding, Epoch, QueueOf, Covers, LeaseOf, Register;
  }

  /** A client is registered for an object exactly if it has asked at some time and there was room. */
  lemma {:induction false} RegisteredIff(run: seq<World>, acts: seq<Action>, n: nat, s: Sub)
    requires IsRun(run, acts) && n < |run| && Initial(run[0])
    ensures s in run[n].net.subs <==> exists m :: 0 <= m < n && Registers(run[m], acts[m], s)
  {
    hide Step, Registers;
    if n > 0 {
      RegisteredIff(run, acts, n - 1, s);
      assert Step(run[n - 1], acts[n - 1], run[n - 1 + 1]);
      SubStep(run[n - 1], acts[n - 1], run[n], s);
    }
  }

  /** The client asked and there was no room, a push to it was dropped, or it reconnected while an event was waiting. */
  ghost predicate Loses(w: World, a: Action, s: Sub) {
    || (Asks(w, a, s) && !a.accepted && s !in w.net.subs)
    || ((a.Push? || a.PushRecall?) && a.sub == s && !a.accepted)
    || (a.Reconnect? && a.client == s.client && Queued(w.net, s))
  }

  lemma LostByNet(w: World, a: Action, w': World, s: Sub)
    requires Step(w, a, w') && (a.Push? || a.PushRecall? || a.Reconnect?)
    ensures s in w'.net.lost <==> s in w.net.lost || Loses(w, a, s)
  {
    hide Invalidate, Store, StoreName, Handle, Register, Gathered, Opened;
    if a.Reconnect? {
      CutComing(w.net, a.client, s);
    }
  }

  lemma LostByOther(w: World, a: Action, w': World, s: Sub)
    requires Step(w, a, w') && !(a.Push? || a.PushRecall? || a.Reconnect?)
    ensures s in w'.net.lost <==> s in w.net.lost || Loses(w, a, s)
  {
    hide Step;
    if OfRegister(a) {
      RegisterNetStep(w, a, w', s);
    } else {
      LostElsewhere(w, a, w');
    }
  }

  lemma LostElsewhere(w: World, a: Action, w': World)
    requires Step(w, a, w') && !(a.Push? || a.PushRecall? || a.Reconnect? || OfRegister(a))
    ensures w'.net.lost == w.net.lost
  {
    hide Store, StoreName, Invalidate, Binding, Enqueue, Cut, Covers, LeaseOf, Epoch, QueueOf, Register;
  }

  /** What counts as lost is exactly what was refused, dropped or cut at some time. */
  lemma {:induction false} LostIff(run: seq<World>, acts: seq<Action>, n: nat, s: Sub)
    requires IsRun(run, acts) && n < |run| && Initial(run[0])
    ensures s in run[n].net.lost <==> exists m :: 0 <= m < n && Loses(run[m], acts[m], s)
  {
    hide Step, Loses;
    if n > 0 {
      LostIff(run, acts, n - 1, s);
      assert Step(run[n - 1], acts[n - 1], run[n - 1 + 1]);
      if acts[n - 1].Push? || acts[n - 1].PushRecall? || acts[n - 1].Reconnect? {
        LostByNet(run[n - 1], acts[n - 1], run[n], s);
      } else {
        LostByOther(run[n - 1], acts[n - 1], run[n], s);
      }
    }
  }

  // --- mutations under way -------------------------------------------------------------------

  predicate OwedObject(n: Net, job: nat, obj: Obj) {
    job in n.jobs && obj in n.jobs[job].owed
  }

  predicate OwedPush(n: Net, job: nat, s: Sub) {
    job in n.jobs && s in n.jobs[job].pushes
  }

  lemma JobStep(w: World, a: Action, w': World, job: nat, obj: Obj, s: Sub)
    requires Step(w, a, w')
    ensures OwedObject(w'.net, job, obj) <==>
              (a.Mutate? && a.job == job && obj in a.keys) || (OwedObject(w.net, job, obj) && a != Collect(job, obj))
    ensures OwedPush(w'.net, job, s) <==>
              (a == Collect(job, s.obj) && s in w.net.subs) || (OwedPush(w.net, job, s) && !(a.Push? && a.job == job && a.sub == s))
  {
    hide Step;
    if a.Mutate? || a.Collect? || a.Push? {
      JobByNet(w, a, w', job, obj, s);
    } else if OfRegister(a) {
      RegisterJobs(w, a, w');
    } else {
      JobByOther(w, a, w');
    }
  }

  lemma JobByNet(w: World, a: Action, w': World, job: nat, obj: Obj, s: Sub)
    requires Step(w, a, w') && (a.Mutate? || a.Collect? || a.Push?)
    ensures OwedObject(w'.net, job, obj) <==>
              (a.Mutate? && a.job == job && obj in a.keys) || (OwedObject(w.net, job, obj) && a != Collect(job, obj))
    ensures OwedPush(w'.net, job, s) <==>
              (a == Collect(job, s.obj) && s in w.net.subs) || (OwedPush(w.net, job, s) && !(a.Push? && a.job == job && a.sub == s))
  {
    hide Store, StoreName, Invalidate, Binding, Epoch, QueueOf, Cut, Register, Covers, Handle;
  }

  lemma JobByOther(w: World, a: Action, w': World)
    requires Step(w, a, w') && !(a.Mutate? || a.Collect? || a.Push? || OfRegister(a))
    ensures w'.net.jobs == w.net.jobs
  {
    hide Store, StoreName, Invalidate, Binding, Epoch, QueueOf, Register, Opened, Gathered, Covers, LeaseOf;
  }

  predicate OfRegister(a: Action) {
    a.List? || a.GrantDir? || a.GrantRecord? || a.GrantInode?
  }

  lemma RegisterJobs(w: World, a: Action, w': World)
    requires Step(w, a, w') && OfRegister(a)
    ensures w'.net.jobs == w.net.jobs && w'.net.queues == w.net.queues
  {
    hide Store, StoreName, Invalidate, Binding, Epoch, QueueOf, Cut;
  }

  /** An object is yet to be bumped exactly since its mutation changed the store, until its callbacks are collected. */
  lemma {:induction false} OwedIff(run: seq<World>, acts: seq<Action>, n: nat, job: nat, obj: Obj)
    requires IsRun(run, acts) && n < |run| && Initial(run[0])
    ensures OwedObject(run[n].net, job, obj) <==>
              exists m :: 0 <= m < n && acts[m].Mutate? && acts[m].job == job && obj in acts[m].keys
                          && forall i :: m < i < n ==> acts[i] != Collect(job, obj)
  {
    hide Step;
    if n > 0 {
      OwedIff(run, acts, n - 1, job, obj);
      assert Step(run[n - 1], acts[n - 1], run[n - 1 + 1]);
      JobStep(run[n - 1], acts[n - 1], run[n], job, obj, Sub(0, obj));
    }
  }

  ghost predicate Fires(a: Action, job: nat, s: Sub) {
    a.Push? && a.job == job && a.sub == s
  }

  /** A callback is yet to be fired exactly since it was collected, from those registered then, until it is fired. */
  lemma {:induction false} PushIff(run: seq<World>, acts: seq<Action>, n: nat, job: nat, s: Sub)
    requires IsRun(run, acts) && n < |run| && Initial(run[0])
    ensures OwedPush(run[n].net, job, s) <==>
              exists m :: 0 <= m < n && acts[m] == Collect(job, s.obj) && s in run[m].net.subs && forall i :: m < i < n ==> !Fires(acts[i], job, s)
  {
    hide Step;
    if n > 0 {
      PushIff(run, acts, n - 1, job, s);
      assert Step(run[n - 1], acts[n - 1], run[n - 1 + 1]);
      JobStep(run[n - 1], acts[n - 1], run[n], job, s.obj, s);
    }
  }

  /** Whoever asked is among the registered or the lost, and whoever is there asked. */
  lemma AskedIff(run: seq<World>, acts: seq<Action>, n: nat, s: Sub)
    requires IsRun(run, acts) && n < |run| && Initial(run[0])
    ensures s in run[n].net.subs + run[n].net.lost <==> exists m :: 0 <= m < n && Asks(run[m], acts[m], s)
  {
    hide Step, Asks, Initial;
    RegisteredIff(run, acts, n, s);
    LostIff(run, acts, n, s);
    if s in run[n].net.subs + run[n].net.lost {
      var m := AskedAt(run, acts, n, s);
    }
    if m :| 0 <= m < n && Asks(run[m], acts[m], s) {
      AsksRegisterOrLose(run[m], acts[m], s);
      RegisteredIff(run, acts, m, s);
    }
  }

  lemma AsksRegisterOrLose(w: World, a: Action, s: Sub)
    requires Asks(w, a, s)
    ensures Registers(w, a, s) || s in w.net.subs || Loses(w, a, s)
  {
  }

  /**
   A callback that is owed can always be fired, and its event is taken exactly if fewer than 64 wait for the client. A
   recall can be pushed to exactly those who have asked for the object, registered or refused, with the same bound.
   */
  lemma PushableIff(run: seq<World>, acts: seq<Action>, n: nat, job: nat, s: Sub, recall: nat, accepted: bool)
    requires IsRun(run, acts) && n < |run| && Initial(run[0])
    ensures Enabled(run[n], Push(job, s, accepted)) <==>
              OwedPush(run[n].net, job, s) && (accepted ==> |QueueOf(run[n].net, s.client)| < 64)
    ensures Enabled(run[n], PushRecall(s, recall, accepted)) <==>
              (exists m :: 0 <= m < n && Asks(run[m], acts[m], s)) && (accepted ==> |QueueOf(run[n].net, s.client)| < 64)
  {
    hide Step, Asks, Initial;
    AskedIff(run, acts, n, s);
  }

  // --- what waits for a client -----------------------------------------------------------------

  /** The event this action puts in the client's queue, if any. */
  function SentBy(a: Action, k: ClientID): seq<Event> {
    match a
    case Push(_, s, accepted) => if s.client == k && accepted then [Invalidated(s.obj)] else []
    case PushRecall(s, recall, accepted) => if s.client == k && accepted then [Recalled(s.obj, recall)] else []
    case _ => []
  }

  /** The events sent to the client, in order. */
  function Sent(acts: seq<Action>, k: ClientID): seq<Event> {
    if acts == [] then [] else Sent(acts[..|acts| - 1], k) + SentBy(acts[|acts| - 1], k)
  }

  /** How many events the client has handled. */
  function Handled(acts: seq<Action>, k: ClientID): nat {
    if acts == [] then 0 else Handled(acts[..|acts| - 1], k) + if acts[|acts| - 1] == Deliver(k) then 1 else 0
  }

  lemma QueueByNet(w: World, a: Action, w': World, k: ClientID)
    requires Step(w, a, w') && (a.Push? || a.PushRecall? || a.Deliver?)
    ensures a == Deliver(k) ==> QueueOf(w.net, k) != []
    ensures QueueOf(w'.net, k) == (QueueOf(w.net, k) + SentBy(a, k))[if a == Deliver(k) then 1 else 0..]
  {
    hide Invalidate, Store, StoreName, Register, Gathered, Opened, Cut;
  }

  lemma QueueByOther(w: World, a: Action, w': World, k: ClientID)
    requires Step(w, a, w') && !(a.Push? || a.PushRecall? || a.Deliver?) && a != Reconnect(k)
    ensures QueueOf(w'.net, k) == QueueOf(w.net, k)
  {
    hide Store, StoreName, Invalidate, Binding, Epoch, Register;
    if OfRegister(a) {
      RegisterJobs(w, a, w');
    }
  }

  lemma ReconnectEmpties(w: World, a: Action, w': World, k: ClientID)
    requires Step(w, a, w') && a == Reconnect(k)
    ensures QueueOf(w'.net, k) == []
  {
  }

  /**
   Events reach a client in the order in which they were sent, none twice and none left out: counted from a moment at which
   nothing waited for it, as at the start and after each reconnect, what it has handled and what waits is what was sent.
   */
  lemma {:induction false} QueueIs(run: seq<World>, acts: seq<Action>, i: nat, n: nat, k: ClientID)
    requires IsRun(run, acts) && i <= n < |run| && QueueOf(run[i].net, k) == [] && Reconnect(k) !in acts[i..n]
    ensures Handled(acts[i..n], k) <= |Sent(acts[i..n], k)|
    ensures QueueOf(run[n].net, k) == Sent(acts[i..n], k)[Handled(acts[i..n], k)..]
    decreases n
  {
    hide Step, SentBy, Sent, Handled, QueueOf;
    if i < n {
      var a := acts[n - 1];
      assert acts[i..n] == acts[i..n - 1] + [a] && a in acts[i..n];
      QueueIs(run, acts, i, n - 1, k);
      assert Step(run[n - 1], a, run[n - 1 + 1]);
      QueueOne(run[n - 1], a, run[n], k);
      SentNext(acts[i..n - 1], a, k);
      TailOfTail(Sent(acts[i..n - 1], k), SentBy(a, k), Handled(acts[i..n - 1], k), if a == Deliver(k) then 1 else 0);
    } else {
      SentNone(k);
      assert acts[i..n] == [];
    }
  }

  lemma QueueOne(w: World, a: Action, w': World, k: ClientID)
    requires Step(w, a, w') && a != Reconnect(k)
    ensures a == Deliver(k) ==> QueueOf(w.net, k) != []
    ensures QueueOf(w'.net, k) == (QueueOf(w.net, k) + SentBy(a, k))[if a == Deliver(k) then 1 else 0..]
  {
    hide Step, QueueOf;
    if a.Push? || a.PushRecall? || a.Deliver? {
      QueueByNet(w, a, w', k);
    } else {
      QueueByOther(w, a, w', k);
      SentOther(a, k);
    }
  }

  lemma SentNone(k: ClientID)
    ensures Sent([], k) == [] && Handled([], k) == 0
  {
  }

  lemma SentNext(acts: seq<Action>, a: Action, k: ClientID)
    ensures Sent(acts + [a], k) == Sent(acts, k) + SentBy(a, k)
    ensures Handled(acts + [a], k) == Handled(acts, k) + if a == Deliver(k) then 1 else 0
  {
    assert (acts + [a])[..|acts|] == acts;
  }

  lemma TailOfTail<T>(s: seq<T>, t: seq<T>, h: nat, d: nat)
    requires h <= |s|
    ensures h + d <= |s + t| ==> (s[h..] + t)[d..] == (s + t)[h + d..]
  {
    assert s + t == s[..h] + (s[h..] + t);
  }

  lemma SentOther(a: Action, k: ClientID)
    ensures !(a.Push? || a.PushRecall?) ==> SentBy(a, k) == []
  {
  }

  /** Nothing waits for anybody at the start, nor for a client that has just reconnected. */
  lemma NothingWaits(run: seq<World>, acts: seq<Action>, i: nat, k: ClientID)
    requires IsRun(run, acts) && i < |run| && (if i == 0 then Initial(run[0]) else acts[i - 1] == Reconnect(k))
    ensures QueueOf(run[i].net, k) == []
  {
    hide Step;
    if i > 0 {
      assert Step(run[i - 1], acts[i - 1], run[i - 1 + 1]);
      ReconnectEmpties(run[i - 1], acts[i - 1], run[i], k);
    }
  }

  // --- acknowledgements ------------------------------------------------------------------------

  /** The client handles this recall: it drops its copy and owes the acknowledgement. */
  ghost predicate Handles(w: World, a: Action, d: Debt) {
    a == Deliver(d.client) && QueueOf(w.net, d.client) != [] && QueueOf(w.net, d.client)[0] == Recalled(d.obj, d.recall)
  }

  ghost predicate Settles(a: Action, d: Debt) {
    a.SendAck? && a.debt == d
  }

  lemma DebtStep(w: World, a: Action, w': World, d: Debt)
    requires Step(w, a, w')
    ensures d in w'.debts <==> Handles(w, a, d) || (d in w.debts && !Settles(a, d))
  {
    hide Store, StoreName, Invalidate, Binding, Register, Enqueue, Gathered, Opened, Cut, Epoch, Taken;
  }

  /** An acknowledgement is owed exactly since the recall was handled, until it is sent. */
  lemma {:induction false} DebtIff(run: seq<World>, acts: seq<Action>, n: nat, d: Debt)
    requires IsRun(run, acts) && n < |run| && Initial(run[0])
    ensures d in run[n].debts <==> exists h :: 0 <= h < n && Handles(run[h], acts[h], d) && forall i :: h < i < n ==> !Settles(acts[i], d)
  {
    hide Step, Handles, Settles;
    if n > 0 {
      DebtIff(run, acts, n - 1, d);
      assert Step(run[n - 1], acts[n - 1], run[n - 1 + 1]);
      DebtStep(run[n - 1], acts[n - 1], run[n], d);
    }
  }

  lemma AckStep(w: World, a: Action, w': World, k: Ack)
    requires Step(w, a, w')
    ensures k in w'.acks <==> k in w.acks || (a == SendAck(Debt(k.client, k.obj, k.recall), true) && k.issued == w.issued)
    ensures a.SendAck? ==> a.debt in w.debts
  {
    hide Store, StoreName, Invalidate, Binding, Register, Enqueue, Gathered, Opened, Cut, Epoch, Taken;
  }

  lemma {:induction false} AckSent(run: seq<World>, acts: seq<Action>, n: nat, k: Ack)
    requires IsRun(run, acts) && n < |run| && Initial(run[0])
    ensures k in run[n].acks <==>
              exists t :: 0 <= t < n && acts[t] == SendAck(Debt(k.client, k.obj, k.recall), true) && k.issued == run[t].issued
  {
    hide Step;
    if n > 0 {
      AckSent(run, acts, n - 1, k);
      assert Step(run[n - 1], acts[n - 1], run[n - 1 + 1]);
      AckStep(run[n - 1], acts[n - 1], run[n], k);
    }
  }

  /** The client handled this recall at `h`, after it was pushed to it, and its acknowledgement arrived at `t`, the first sent since. */
  ghost predicate AckedFor(run: seq<World>, acts: seq<Action>, h: int, t: int, d: Debt)
    requires |run| == |acts| + 1
  {
    && 0 <= h < t < |acts| && Handles(run[h], acts[h], d) && PushRecall(Sub(d.client, d.obj), d.recall, true) in acts[..h]
    && acts[t] == SendAck(d, true) && forall i :: h < i < t ==> !Settles(acts[i], d)
  }

  ghost predicate HasAcked(w: World, d: Debt) {
    exists a :: a in w.acks && a.client == d.client && a.obj == d.obj && a.recall == d.recall
  }

  /**
   A client has acknowledged a recall exactly if the recall was pushed to it, it handled it, and the acknowledgement it
   then sent arrived: it never acknowledges without having dropped its copy, and what it sends and arrives counts.
   */
  lemma AckedIff(run: seq<World>, acts: seq<Action>, n: nat, d: Debt)
    requires IsRun(run, acts) && n < |run| && Initial(run[0])
    ensures HasAcked(run[n], d) <==> exists h, t :: t < n && AckedFor(run, acts, h, t, d)
  {
    hide Step, Handles, Settles, Initial;
    if HasAcked(run[n], d) {
      var a :| a in run[n].acks && a.client == d.client && a.obj == d.obj && a.recall == d.recall;
      AckSent(run, acts, n, a);
      var t :| 0 <= t < n && acts[t] == SendAck(d, true);
      assert Step(run[t], acts[t], run[t + 1]);
      AckStep(run[t], acts[t], run[t + 1], Ack(0, d.obj, 0, 0));
      DebtIff(run, acts, t, d);
      var h :| 0 <= h < t && Handles(run[h], acts[h], d) && forall i :: h < i < t ==> !Settles(acts[i], d);
      HandledWasPushed(run, acts, h, d);
      assert AckedFor(run, acts, h, t, d);
    }
    if h, t :| t < n && AckedFor(run, acts, h, t, d) {
      AckSent(run, acts, n, Ack(d.client, d.obj, d.recall, run[t].issued));
    }
  }

  lemma HandledWasPushed(run: seq<World>, acts: seq<Action>, h: nat, d: Debt)
    requires IsRun(run, acts) && h < |acts| && Initial(run[0]) && Handles(run[h], acts[h], d)
    ensures PushRecall(Sub(d.client, d.obj), d.recall, true) in acts[..h]
  {
    hide Step, Initial;
    var m := ToldWithCause(run, acts, h, d.client, Recalled(d.obj, d.recall));
    var i :| 0 <= i < h && acts[i] == PushRecall(Sub(d.client, d.obj), d.recall, true);
    assert acts[..h][i] == acts[i];
  }
}
