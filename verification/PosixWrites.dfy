/**
 What a recall is for (pkg/mds/server.go, pkg/coherence): in the posix class a write is made only once every other holder
 has given up its copy. This is exactly who can still answer the old record when the write is made, and a run for each
 way there is.
 */
module PosixWrites {
  import opened Base
  import opened Namespace
  import opened LeaseCache
  import opened Protocol
  import opened RecallSafety
  import opened InodeCoherence
  import opened Chronicle
  import Deliveries
  import LeaseAge

  // --- the authority's leases ------------------------------------------------------------------------

  /** The step takes the client's lease of the object from it: another's recall. */
  predicate Revokes(a: Action, s: Sub) {
    a.Recall? && a.obj == s.obj && a.mutator != s.client
  }

  ghost predicate Unrevoked(acts: seq<Action>, i: nat, b: nat, s: Sub)
    requires b <= |acts|
  {
    forall m :: i < m < b ==> !Revokes(acts[m], s)
  }

  /** At step `b` the authority still counts on the lease it granted at step `i`. */
  ghost predicate Counted(run: seq<World>, acts: seq<Action>, i: nat, b: nat, s: Sub)
    requires |run| == |acts| + 1 && b < |run|
  {
    i < b && Deliveries.Asks(run[i], acts[i], s) && run[b].now <= run[i].now + run[i].ttl && Unrevoked(acts, i, b, s)
  }

  /** The recall of step `b` asks this client: it is not the mutator, and the authority counts on a lease of its. */
  ghost predicate Asked(run: seq<World>, acts: seq<Action>, b: nat, k: ClientID)
    requires |run| == |acts| + 1 && b < |acts|
  {
    acts[b].Recall? && acts[b].mutator != k && exists i :: Counted(run, acts, i, b, Sub(k, acts[b].obj))
  }

  /** The recall's number was drawn for it: nothing was pushed under it before. */
  ghost predicate Drawn(acts: seq<Action>, b: nat)
    requires b < |acts| && acts[b].Recall?
  {
    forall i :: 0 <= i < b && acts[i].PushRecall? ==> acts[i].recall != acts[b].recall
  }

  // --- who holds a record ----------------------------------------------------------------------------

  /** At step `j` the client stored a record of the inode, which it has not dropped, and whose lease has not run out. */
  ghost predicate HoldsFrom(run: seq<World>, acts: seq<Action>, j: nat, n: nat, k: ClientID, id: InodeID, e: Entry)
    requires |run| == |acts| + 1 && n < |run|
  {
    && j < n && Puts(run[j], acts[j], k, id, e) && Undropped(run, acts, j, n, k, InoObj(id))
    && (run[j].ttl > 0 ==> run[n].now <= run[j].now + run[j].ttl)
  }

  lemma {:induction false} PutAt(run: seq<World>, acts: seq<Action>, n: nat, k: ClientID, id: InodeID) returns (j: nat)
    requires IsRun(run, acts) && n < |run| && Initial(run[0]) && InoObj(id) in ClientOf(run[n], k).cache
    ensures j < n && Puts(run[j], acts[j], k, id, ClientOf(run[n], k).cache[InoObj(id)]) && Undropped(run, acts, j, n, k, InoObj(id))
  {
    hide Step, Initial, ByGet, ByLookup, DropsIt;
    InitialIsEmpty(run[0]);
    j := n - 1;
    var e := ClientOf(run[n], k).cache[InoObj(id)];
    assert Step(run[j], acts[j], run[j + 1]);
    CacheOfStep(run[j], acts[j], run[n], k, id);
    if Puts(run[j], acts[j], k, id, e) {
      NotDropping(run[j], acts[j], k, InoObj(id));
    } else {
      j := PutAt(run, acts, n - 1, k, id);
    }
  }

  lemma PutIsFilled(w: World, a: Action, k: ClientID, id: InodeID, e: Entry)
    requires Puts(w, a, k, id, e)
    ensures e == Filled(w, e.record) && (a.KeepInode? || a.KeepRecord?)
  {
  }

  /** A later store renews the lease, so an entry outlives every store before it that was not followed by a drop. */
  lemma {:induction false} ExpiresLater(run: seq<World>, acts: seq<Action>, j: nat, n: nat, k: ClientID, id: InodeID, e: Entry)
    requires IsRun(run, acts) && j < n < |run| && Initial(run[0]) && Puts(run[j], acts[j], k, id, e) && Undropped(run, acts, j, n, k, InoObj(id))
    ensures InoObj(id) in ClientOf(run[n], k).cache
    ensures var x := ClientOf(run[n], k).cache[InoObj(id)].expiry; x.Some? <==> run[j].ttl > 0
    ensures var x := ClientOf(run[n], k).cache[InoObj(id)].expiry; x.Some? ==> x.value >= run[j].now + run[j].ttl
    decreases n
  {
    hide Step, Initial, ByGet, ByLookup, DropsIt;
    PutIsFilled(run[j], acts[j], k, id, e);
    assert Step(run[n - 1], acts[n - 1], run[n - 1 + 1]);
    if j == n - 1 {
      PutsStored(run[j], acts[j], run[n], k, id, e);
    } else {
      ExpiresLater(run, acts, j, n - 1, k, id, e);
      StaysCached(run[n - 1], acts[n - 1], run[n], k, id);
      CacheOfStep(run[n - 1], acts[n - 1], run[n], k, id);
      var e' := ClientOf(run[n], k).cache[InoObj(id)];
      if Puts(run[n - 1], acts[n - 1], k, id, e') {
        PutIsFilled(run[n - 1], acts[n - 1], k, id, e');
        LeaseAge.ClockOfRun(run, acts, j, n - 1);
      }
    }
  }

  /** In every run, exactly who answers a record of an inode from its cache: who stored one, has not dropped it, and whose lease runs. */
  lemma AnswersIff(run: seq<World>, acts: seq<Action>, n: nat, k: ClientID, id: InodeID)
    requires IsRun(run, acts) && n < |run| && Initial(run[0])
    ensures CachedInode(ClientOf(run[n], k), id, run[n].now).Some? <==> exists j: nat, e: Entry :: HoldsFrom(run, acts, j, n, k, id, e)
  {
    hide Step, Initial, Puts, Undropped;
    if CachedInode(ClientOf(run[n], k), id, run[n].now).Some? {
      var j := PutAt(run, acts, n, k, id);
      PutIsFilled(run[j], acts[j], k, id, ClientOf(run[n], k).cache[InoObj(id)]);
      assert HoldsFrom(run, acts, j, n, k, id, ClientOf(run[n], k).cache[InoObj(id)]);
    }
    if j: nat, e: Entry :| HoldsFrom(run, acts, j, n, k, id, e) {
      ExpiresLater(run, acts, j, n, k, id, e);
    }
  }

  // --- who answers when the write is made ---------------------------------------------------------------

  lemma HandledAfter(run: seq<World>, acts: seq<Action>, b: nat, n: nat, a: Ack) returns (h: nat, t: nat)
    requires IsRun(run, acts) && b < |acts| && n < |run| && Initial(run[0]) && acts[b].Recall? && Drawn(acts, b)
    requires a in run[n].acks && a.recall == acts[b].recall
    ensures b < h < t < n && acts[t] == SendAck(Debt(a.client, a.obj, a.recall), true)
    ensures acts[h] == Deliver(a.client) && QueueOf(run[h].net, a.client) != [] && QueueOf(run[h].net, a.client)[0] == Recalled(a.obj, a.recall)
  {
    hide Step, Initial, Deliveries.Asks, Deliveries.Registers;
    h, t := AckedAt(run, acts, n, a);
    var e := QueueOf(run[h].net, a.client)[0];
    assert e in QueueOf(run[h].net, a.client);
    var m := Deliveries.ToldWithCause(run, acts, h, a.client, e);
    var i :| 0 <= i < h && acts[i] == PushRecall(Sub(a.client, a.obj), a.recall, true);
    assert i >= b;
  }

  /**
   Why a client other than the mutator still answers a record of the inode when the write of a recall's mutator is made, at
   step `n`. The record came with a flight granted at `g`. Either the recall of step `b` did not ask the client, because
   `g` came after it, or the lease of `g` had run out at the authority by then, though the client counts its own from the
   storing, or an earlier recall had taken it; or the client was asked and has not acknowledged; or it has, and stored the
   record for a request that it made after it dropped its copy.
   */
  lemma WriteFinds(run: seq<World>, acts: seq<Action>, b: nat, n: nat, k: ClientID, id: InodeID) returns (f: nat, r: nat, g: nat, p: nat, s: nat)
    requires IsRun(run, acts) && b < n < |run| && Initial(run[0]) && run[0].ttl > 0
    requires acts[b].Recall? && acts[b].obj == InoObj(id) && acts[b].mutator != k && Drawn(acts, b)
    requires CachedInode(ClientOf(run[n], k), id, run[n].now).Some?
    ensures s < n && Brought(run, acts, f, k, id, CachedInode(ClientOf(run[n], k), id, run[n].now).value, r, g, p, s)
    ensures || b < g
            || run[b].now > run[g].now + run[g].ttl
            || !Unrevoked(acts, g, b, Sub(k, InoObj(id)))
            || (Asked(run, acts, b, k) && !HasAcked(run[n], Debt(k, InoObj(id), acts[b].recall)))
            || (Asked(run, acts, b, k) && exists h: nat :: b < h < n && HandlesRecall(run[h], acts[h], k, id) && Restored(run, acts, h, n, k, id))
  {
    hide Step, Initial, Restored, Deliveries.Asks, Undropped;
    f, r, g, p, s := CachedBrought(run, acts, n, k, id);
    if g < b && run[b].now <= run[g].now + run[g].ttl && Unrevoked(acts, g, b, Sub(k, InoObj(id))) {
      assert Counted(run, acts, g, b, Sub(k, InoObj(id)));
      if HasAcked(run[n], Debt(k, InoObj(id), acts[b].recall)) {
        var a :| a in run[n].acks && a.client == k && a.obj == InoObj(id) && a.recall == acts[b].recall;
        var h, t := HandledAfter(run, acts, b, n, a);
        HeldAfterDrop(run, acts, h, n, k, id);
        assert HandlesRecall(run[h], acts[h], k, id) && Restored(run, acts, h, n, k, id);
      }
    } else {
      assert g != b;
    }
  }

  /** So a client that has acknowledged holds a record exactly if it stored one for a request that it made after it dropped its copy. */
  lemma AckedHolds(run: seq<World>, acts: seq<Action>, b: nat, n: nat, id: InodeID, a: Ack) returns (h: nat, t: nat)
    requires IsRun(run, acts) && b < n < |run| && Initial(run[0])
    requires acts[b].Recall? && Drawn(acts, b) && a in run[n].acks && a.obj == InoObj(id) && a.recall == acts[b].recall
    ensures b < h < t < n && HandlesRecall(run[h], acts[h], a.client, id) && acts[t] == SendAck(Debt(a.client, a.obj, a.recall), true)
    ensures InoObj(id) in ClientOf(run[n], a.client).cache <==> Restored(run, acts, h, n, a.client, id)
  {
    hide Step, Initial, Restored;
    h, t := HandledAfter(run, acts, b, n, a);
    HeldAfterDrop(run, acts, h, n, a.client, id);
  }

  // --- a run for each ------------------------------------------------------------------------------------

  const SUB := Sub(0, InoObj(2))
  const OWED := Debt(0, InoObj(2), 7)

  /** One inode, one client that reads it, and the mutator, client 1; the client's requests are its only flights. */
  function Scene(ttl: Time, now: Time, rec: InodeRecord, subs: set<Sub>, client: Client, g: Option<(nat, GetFlight)>, issued: nat): World {
    World(now, ttl, map[], map[2 := rec], Net(subs, map[], map[], {}), map[0 := client], map[],
          if g.Some? then map[g.value.0 := g.value.1] else map[], issued, {}, {})
  }

  /** The write, bumping the inode. */
  function Write(rec: InodeRecord): Action {
    Mutate(0, {InoObj(2)}, map[], map[2 := rec])
  }

  function Written(w: World, rec: InodeRecord): World {
    w.(inode := map[2 := rec], net := Opened(w.net, 0, {InoObj(2)}))
  }

  lemma WriteStep(w: World, rec: InodeRecord)
    requires w.dentry == map[] && 0 !in w.net.jobs
    ensures Step(w, Write(rec), Written(w, rec))
  {
  }

  lemma RunNext(run: seq<World>, acts: seq<Action>, a: Action, w: World)
    requires IsRun(run, acts) && Step(run[|acts|], a, w)
    ensures IsRun(run + [w], acts + [a])
  {
    hide Step;
    var run', acts' := run + [w], acts + [a];
    forall i | 0 <= i < |acts'| ensures Step(run'[i], acts'[i], run'[i + 1]) {
      if i < |acts| {
        assert Step(run[i], acts[i], run[i + 1]);
      }
    }
  }

  /**
   At the end of the run the mutator of the recall of step `b` has made its write, and the client, which no push was lost
   to, answers the record from before.
   */
  ghost predicate AnswersOld(run: seq<World>, acts: seq<Action>, b: nat, before: InodeRecord, after: InodeRecord) {
    && IsRun(run, acts) && Initial(run[0]) && b < |acts| - 1 && acts[|acts| - 1] == Write(after)
    && acts[b].Recall? && acts[b].obj == InoObj(2) && acts[b].mutator != 0 && Drawn(acts, b)
    && run[|acts|].inode == map[2 := after] && run[|acts|].net.lost == {}
    && CachedInode(ClientOf(run[|acts|], 0), 2, run[|acts|].now) == Some(before)
  }

  function Having(rec: InodeRecord, ttl: Time, now: Time): Client {
    Store(EMPTY, InoObj(2), rec, Lease(0, ttl), 0, now)
  }

  function Flight(answer: Option<InodeRecord>, granted: bool): GetFlight {
    GetFlight(0, 2, 0, answer, granted)
  }

  /** The client fetches the record, and stores it when `late` has passed since it was granted. */
  lemma FetchSteps(ttl: Time, rec: InodeRecord, late: nat)
    ensures var w := Fresh(ttl, map[], map[2 := rec]);
            var w0, w1 := w.(gets := map[0 := Flight(None, false)], issued := 1), w.(gets := map[0 := Flight(Some(rec), false)], issued := 1);
            var w2 := w.(gets := map[0 := Flight(Some(rec), true)], issued := 1, net := Net({SUB}, map[], map[], {}));
            && Step(w, AskInode(0, 2), w0) && Step(w0, ReadInode(0), w1) && Step(w1, GrantInode(0, true), w2)
            && Step(w2, Advance(late), w2.(now := late))
            && Step(w2.(now := late), KeepInode(0), Scene(ttl, late, rec, {SUB}, Having(rec, ttl, late), None, 1))
  {
  }

  const FETCH := [AskInode(0, 2), ReadInode(0), GrantInode(0, true)]

  lemma Fetched(ttl: Time, rec: InodeRecord, late: nat) returns (run: seq<World>, acts: seq<Action>)
    ensures acts == FETCH + [Advance(late), KeepInode(0)] && IsRun(run, acts) && run[0] == Fresh(ttl, map[], map[2 := rec])
    ensures run[2].now == 0 && run[2].ttl == ttl && Deliveries.Asks(run[2], acts[2], SUB)
    ensures run[5] == Scene(ttl, late, rec, {SUB}, Having(rec, ttl, late), None, 1)
  {
    hide Step;
    FetchSteps(ttl, rec, late);
    var w := Fresh(ttl, map[], map[2 := rec]);
    var w0, w1 := w.(gets := map[0 := Flight(None, false)], issued := 1), w.(gets := map[0 := Flight(Some(rec), false)], issued := 1);
    var w2 := w.(gets := map[0 := Flight(Some(rec), true)], issued := 1, net := Net({SUB}, map[], map[], {}));
    run := [w, w0, w1, w2, w2.(now := late), Scene(ttl, late, rec, {SUB}, Having(rec, ttl, late), None, 1)];
    acts := FETCH + [Advance(late), KeepInode(0)];
    assert acts == [AskInode(0, 2), ReadInode(0), GrantInode(0, true), Advance(late), KeepInode(0)];
  }

  lemma HavingAnswers(rec: InodeRecord, ttl: Time, at: Time, now: Time)
    requires ttl > 0 && now <= at + ttl
    ensures CachedInode(Having(rec, ttl, at), 2, now) == Some(rec)
  {
  }

  lemma RecallStep(w: World, mutator: ClientID, recall: nat)
    ensures Step(w, Recall(InoObj(2), mutator, recall), w)
  {
  }

  lemma AdvanceStep(w: World, dt: nat)
    ensures Step(w, Advance(dt), w.(now := w.now + dt))
  {
  }

  /** The client fetched the record after the recall had settled whom to ask. */
  lemma GrantedAfter(ttl: Time, before: InodeRecord, after: InodeRecord) returns (run: seq<World>, acts: seq<Action>, b: nat, g: nat)
    requires ttl > 0
    ensures AnswersOld(run, acts, b, before, after) && b < g < |acts| && acts[g] == GrantInode(0, true)
  {
    hide Step;
    var run0, acts0 := Fetched(ttl, before, 0);
    RecallStep(run0[0], 1, 7);
    run, acts, b, g := [run0[0]] + run0, [Recall(InoObj(2), 1, 7)] + acts0, 0, 3;
    forall i | 0 <= i < |acts| ensures Step(run[i], acts[i], run[i + 1]) {
      if i > 0 {
        assert Step(run0[i - 1], acts0[i - 1], run0[i - 1 + 1]);
      }
    }
    var w := run[6];
    WriteStep(w, after);
    RunNext(run, acts, Write(after), Written(w, after));
    HavingAnswers(before, ttl, 0, 0);
    run, acts := run + [Written(w, after)], acts + [Write(after)];
  }

  /** The lease had run out at the authority, and not at the client, which counts from when it stored the record. */
  lemma LapsedFirst(ttl: Time, before: InodeRecord, after: InodeRecord) returns (run: seq<World>, acts: seq<Action>, b: nat, g: nat)
    requires ttl > 0
    ensures AnswersOld(run, acts, b, before, after) && g < b && acts[g] == GrantInode(0, true) && run[b].now > run[g].now + run[g].ttl
  {
    hide Step;
    run, acts := Fetched(ttl, before, ttl + 1);
    b, g := 5, 2;
    var w := run[5];
    RecallStep(w, 1, 7);
    RunNext(run, acts, Recall(InoObj(2), 1, 7), w);
    run, acts := run + [w], acts + [Recall(InoObj(2), 1, 7)];
    WriteStep(w, after);
    RunNext(run, acts, Write(after), Written(w, after));
    HavingAnswers(before, ttl, ttl + 1, ttl + 1);
    run, acts := run + [Written(w, after)], acts + [Write(after)];
  }

  /** Another mutator's recall, that the client did not answer, had taken its lease. */
  lemma RevokedBefore(ttl: Time, before: InodeRecord, after: InodeRecord) returns (run: seq<World>, acts: seq<Action>, b: nat, g: nat)
    requires ttl > 0
    ensures AnswersOld(run, acts, b, before, after) && g < b && acts[g] == GrantInode(0, true) && run[b].now <= run[g].now + run[g].ttl
    ensures !Unrevoked(acts, g, b, SUB)
  {
    hide Step;
    run, acts := Fetched(ttl, before, 0);
    b, g := 6, 2;
    var w := run[5];
    RecallStep(w, 2, 6);
    RunNext(run, acts, Recall(InoObj(2), 2, 6), w);
    run, acts := run + [w], acts + [Recall(InoObj(2), 2, 6)];
    RecallStep(w, 1, 7);
    RunNext(run, acts, Recall(InoObj(2), 1, 7), w);
    run, acts := run + [w], acts + [Recall(InoObj(2), 1, 7)];
    WriteStep(w, after);
    RunNext(run, acts, Write(after), Written(w, after));
    HavingAnswers(before, ttl, 0, 0);
    run, acts := run + [Written(w, after)], acts + [Write(after)];
    assert Revokes(acts[5], SUB);
  }

  /** The client was asked and does not answer within the deadline. */
  lemma Unanswering(ttl: Time, before: InodeRecord, after: InodeRecord, deadline: nat) returns (run: seq<World>, acts: seq<Action>, b: nat)
    requires 0 <= deadline <= ttl && ttl > 0
    ensures AnswersOld(run, acts, b, before, after) && Asked(run, acts, b, 0) && !HasAcked(run[|acts| - 1], Debt(0, InoObj(2), 7))
    ensures run[|acts| - 1].now == run[b].now + deadline
  {
    hide Step;
    run, acts := Fetched(ttl, before, 0);
    b := 5;
    var w := run[5];
    RecallStep(w, 1, 7);
    RunNext(run, acts, Recall(InoObj(2), 1, 7), w);
    run, acts := run + [w], acts + [Recall(InoObj(2), 1, 7)];
    AdvanceStep(w, deadline);
    var w1 := w.(now := w.now + deadline);
    RunNext(run, acts, Advance(deadline), w1);
    run, acts := run + [w1], acts + [Advance(deadline)];
    WriteStep(w1, after);
    RunNext(run, acts, Write(after), Written(w1, after));
    HavingAnswers(before, ttl, 0, deadline);
    run, acts := run + [Written(w1, after)], acts + [Write(after)];
    assert Counted(run, acts, 2, 5, SUB);
  }

  // --- and the one in which it acknowledges --------------------------------------------------------------------

  /** The client after it dropped its copy for the recall. */
  const DROPPED := Client(map[], map[], map[], map[InoObj(2) := 1])

  function Restoring(rec: InodeRecord, ttl: Time): Client {
    Store(DROPPED, InoObj(2), rec, Lease(0, ttl), 1, 0)
  }

  function Owing(ttl: Time, rec: InodeRecord, client: Client, gets: map<nat, GetFlight>, issued: nat): World {
    World(0, ttl, map[], map[2 := rec], Net({SUB}, map[0 := []], map[], {}), map[0 := client], map[], gets, issued, {}, {OWED})
  }

  lemma DropSteps(ttl: Time, rec: InodeRecord)
    ensures var w := Scene(ttl, 0, rec, {SUB}, Having(rec, ttl, 0), None, 1);
            var w1 := w.(net := Net({SUB}, map[0 := [Recalled(InoObj(2), 7)]], map[], {}));
            Step(w, PushRecall(SUB, 7, true), w1) && Step(w1, Deliver(0), Owing(ttl, rec, DROPPED, map[], 1))
  {
    var w := Scene(ttl, 0, rec, {SUB}, Having(rec, ttl, 0), None, 1);
    assert Enqueue(w.net, SUB, Recalled(InoObj(2), 7), true) == Net({SUB}, map[0 := [Recalled(InoObj(2), 7)]], map[], {}) by {
      assert [] + [Recalled(InoObj(2), 7)] == [Recalled(InoObj(2), 7)];
    }
    assert [Recalled(InoObj(2), 7)][1..] == [];
    assert Invalidate(Having(rec, ttl, 0), InoObj(2)) == DROPPED;
  }

  lemma AgainSteps(ttl: Time, rec: InodeRecord)
    ensures var w := Owing(ttl, rec, DROPPED, map[], 1); var g := GetFlight(0, 2, 1, None, false);
            && Step(w, AskInode(0, 2), Owing(ttl, rec, DROPPED, map[1 := g], 2))
            && Step(Owing(ttl, rec, DROPPED, map[1 := g], 2), ReadInode(1), Owing(ttl, rec, DROPPED, map[1 := g.(answer := Some(rec))], 2))
            && Step(Owing(ttl, rec, DROPPED, map[1 := g.(answer := Some(rec))], 2), GrantInode(1, true),
                    Owing(ttl, rec, DROPPED, map[1 := g.(answer := Some(rec), granted := true)], 2))
  {
    assert {SUB} + {SUB} == {SUB};
  }

  lemma AckSteps(ttl: Time, rec: InodeRecord)
    ensures var g := GetFlight(0, 2, 1, Some(rec), true); var w := Owing(ttl, rec, Restoring(rec, ttl), map[], 2);
            && Step(Owing(ttl, rec, DROPPED, map[1 := g], 2), KeepInode(1), w)
            && Step(w, SendAck(OWED, true), w.(debts := {}, acks := {Ack(0, InoObj(2), 7, 2)}))
  {
    assert {OWED} - {OWED} == {};
  }

  lemma RunTwo(run: seq<World>, acts: seq<Action>, a: Action, w: World, a': Action, w': World) returns (run': seq<World>, acts': seq<Action>)
    requires IsRun(run, acts) && Step(run[|acts|], a, w) && Step(w, a', w')
    ensures run' == run + [w, w'] && acts' == acts + [a, a'] && IsRun(run', acts')
  {
    hide Step;
    RunNext(run, acts, a, w);
    RunNext(run + [w], acts + [a], a', w');
    run', acts' := run + [w] + [w'], acts + [a] + [a'];
    assert run' == run + [w, w'] && acts' == acts + [a, a'];
  }

  const RECALLED := [Recall(InoObj(2), 1, 7), PushRecall(SUB, 7, true), Deliver(0)]
  const AGAIN := [AskInode(0, 2), ReadInode(1), GrantInode(1, true), KeepInode(1), SendAck(OWED, true)]

  lemma DroppedRun(ttl: Time, rec: InodeRecord) returns (run: seq<World>, acts: seq<Action>)
    requires ttl > 0
    ensures acts == FETCH + [Advance(0), KeepInode(0)] + RECALLED && IsRun(run, acts) && run[0] == Fresh(ttl, map[], map[2 := rec])
    ensures Counted(run, acts, 2, 5, SUB) && HandlesRecall(run[7], acts[7], 0, 2) && run[8] == Owing(ttl, rec, DROPPED, map[], 1)
  {
    hide Step;
    run, acts := Fetched(ttl, rec, 0);
    var w := run[5];
    RecallStep(w, 1, 7);
    RunNext(run, acts, Recall(InoObj(2), 1, 7), w);
    run, acts := run + [w], acts + [Recall(InoObj(2), 1, 7)];
    DropSteps(ttl, rec);
    var w1 := w.(net := Net({SUB}, map[0 := [Recalled(InoObj(2), 7)]], map[], {}));
    run, acts := RunTwo(run, acts, PushRecall(SUB, 7, true), w1, Deliver(0), Owing(ttl, rec, DROPPED, map[], 1));
  }

  lemma AgainRun(ttl: Time, rec: InodeRecord, run0: seq<World>, acts0: seq<Action>) returns (run: seq<World>, acts: seq<Action>)
    requires IsRun(run0, acts0) && run0[|acts0|] == Owing(ttl, rec, DROPPED, map[], 1)
    ensures acts == acts0 + AGAIN && IsRun(run, acts) && run0 <= run
    ensures run[|acts|] == Owing(ttl, rec, Restoring(rec, ttl), map[], 2).(debts := {}, acks := {Ack(0, InoObj(2), 7, 2)})
  {
    hide Step, Owing;
    var g := GetFlight(0, 2, 1, None, false);
    AgainSteps(ttl, rec);
    AckSteps(ttl, rec);
    run, acts := RunTwo(run0, acts0, AskInode(0, 2), Owing(ttl, rec, DROPPED, map[1 := g], 2),
                        ReadInode(1), Owing(ttl, rec, DROPPED, map[1 := g.(answer := Some(rec))], 2));
    run, acts := RunTwo(run, acts, GrantInode(1, true), Owing(ttl, rec, DROPPED, map[1 := g.(answer := Some(rec), granted := true)], 2),
                        KeepInode(1), Owing(ttl, rec, Restoring(rec, ttl), map[], 2));
    var w := Owing(ttl, rec, Restoring(rec, ttl), map[], 2).(debts := {}, acks := {Ack(0, InoObj(2), 7, 2)});
    RunNext(run, acts, SendAck(OWED, true), w);
    run, acts := run + [w], acts + [SendAck(OWED, true)];
  }

  lemma CountedLonger(run: seq<World>, acts: seq<Action>, run': seq<World>, acts': seq<Action>, i: nat, b: nat, s: Sub)
    requires |run| == |acts| + 1 && |run'| == |acts'| + 1 && b < |acts| && run <= run' && acts <= acts' && Counted(run, acts, i, b, s)
    ensures Counted(run', acts', i, b, s)
  {
  }

  /** The client drops its copy, asks for the record again, stores it, and only then acknowledges. */
  lemma AckedAndBack(ttl: Time, before: InodeRecord, after: InodeRecord) returns (run: seq<World>, acts: seq<Action>, b: nat, h: nat)
    requires ttl > 0
    ensures AnswersOld(run, acts, b, before, after) && Asked(run, acts, b, 0) && HasAcked(run[|acts| - 1], Debt(0, InoObj(2), 7))
    ensures acts == FETCH + [Advance(0), KeepInode(0)] + RECALLED + AGAIN + [Write(after)]
    ensures b < h < |acts| - 1 && HandlesRecall(run[h], acts[h], 0, 2) && Restored(run, acts, h, |acts| - 1, 0, 2)
  {
    hide Step, Restored, Counted;
    var run0, acts0 := DroppedRun(ttl, before);
    b, h := 5, 7;
    run, acts := AgainRun(ttl, before, run0, acts0);
    var w := run[|acts|];
    assert Ack(0, InoObj(2), 7, 2) in w.acks;
    WriteStep(w, after);
    RunNext(run, acts, Write(after), Written(w, after));
    run, acts := run + [Written(w, after)], acts + [Write(after)];
    CountedLonger(run0, acts0, run, acts, 2, 5, SUB);
    HeldAfterDrop(run, acts, h, |acts| - 1, 0, 2);
  }
}
