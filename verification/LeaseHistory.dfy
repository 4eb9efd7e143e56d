/** The lease manager's answers as functions of the history of calls: what each is, in every interleaving, and why. */
module LeaseHistory {
  import opened Base
  import opened Coherence

  // --- versions ----------------------------------------------------------------------------------

  /** How often an action occurs among the first `n`. */
  function Count(run: seq<Action>, n: nat, a: Action): nat
    requires n <= |run|
  {
    if n == 0 then 0 else Count(run, n - 1, a) + if run[n - 1] == a then 1 else 0
  }

  lemma VersionStep(s: State, a: Action, obj: Name)
    ensures Version(Apply(s, a), obj) == Version(s, obj) + if a == DoBump(obj) then 1 else 0
    ensures DirVersion(Apply(s, a), obj) == DirVersion(s, obj) + if a == DoBumpDir(obj) then 1 else 0
  {
  }

  /** An object's version is the number of its bumps, a directory's that of its own. */
  lemma {:induction false} VersionCounts(now: Time, lease: Time, run: seq<Action>, n: nat, obj: Name)
    requires n <= |run|
    ensures Version(After(Start(now, lease), run, n), obj) == Count(run, n, DoBump(obj))
    ensures DirVersion(After(Start(now, lease), run, n), obj) == Count(run, n, DoBumpDir(obj))
  {
    if n > 0 {
      VersionCounts(now, lease, run, n - 1, obj);
      VersionStep(After(Start(now, lease), run, n - 1), run[n - 1], obj);
    }
  }

  // --- leases --------------------------------------------------------------------------------------

  /** A recall of the object by somebody else. */
  predicate RecallsFrom(a: Action, holder: Name, obj: Name) {
    a.DoIssue? && a.obj == obj && a.mutator != holder
  }

  /** The holder's last grant, with no recall by another since. */
  ghost predicate LastGrant(run: seq<Action>, i: nat, n: nat, holder: Name, obj: Name)
    requires n <= |run|
  {
    && i < n && run[i] == DoGrant(holder, obj)
    && forall j :: i < j < n ==> run[j] != DoGrant(holder, obj) && !RecallsFrom(run[j], holder, obj)
  }

  /** How one step changes one lease: a grant sets it, a recall by another drops it unless it has lapsed. */
  lemma LeaseStep(s: State, a: Action, holder: Name, obj: Name)
    ensures var k := On(obj, holder); var s' := Apply(s, a);
            if a == DoGrant(holder, obj) then k in s'.leases && s'.leases[k] == Lease(Version(s, obj), s.now + s.lease)
            else if RecallsFrom(a, holder, obj) && k in s.leases && s.now <= s.leases[k].expiry then k !in s'.leases
            else (k in s'.leases <==> k in s.leases) && (k in s.leases ==> s'.leases[k] == s.leases[k])
  {
  }

  /** A lease that is there and has not lapsed is the last one granted. */
  ghost predicate Explained(s: State, run: seq<Action>, n: nat, holder: Name, obj: Name)
    requires n <= |run|
  {
    var c, k := After(s, run, n), On(obj, holder);
    && (k in c.leases && c.now <= c.leases[k].expiry ==>
          exists i :: LastGrant(run, i, n, holder, obj) && c.leases[k] == Lease(Version(After(s, run, i), obj), After(s, run, i).now + s.lease))
    && (forall i :: LastGrant(run, i, n, holder, obj) && c.now <= After(s, run, i).now + s.lease ==>
          k in c.leases && c.leases[k] == Lease(Version(After(s, run, i), obj), After(s, run, i).now + s.lease))
  }

  lemma LastGrantKept(run: seq<Action>, i: nat, n: nat, holder: Name, obj: Name)
    requires n < |run| && run[n] != DoGrant(holder, obj) && !RecallsFrom(run[n], holder, obj)
    ensures LastGrant(run, i, n + 1, holder, obj) <==> LastGrant(run, i, n, holder, obj)
  {
  }

  lemma LastGrantNow(run: seq<Action>, n: nat, m: nat, holder: Name, obj: Name)
    requires n < |run| && m == n + 1 && run[n] == DoGrant(holder, obj)
    ensures forall i: nat :: LastGrant(run, i, m, holder, obj) <==> i == n
  {
  }

  lemma LastGrantGone(run: seq<Action>, n: nat, m: nat, holder: Name, obj: Name)
    requires n < |run| && m == n + 1 && RecallsFrom(run[n], holder, obj)
    ensures forall i: nat :: !LastGrant(run, i, m, holder, obj)
  {
  }

  lemma ExplainedNext(s: State, run: seq<Action>, n: nat, holder: Name, obj: Name)
    requires n < |run| && Explained(s, run, n, holder, obj)
    ensures Explained(s, run, n + 1, holder, obj)
  {
    hide Apply, LastGrant;
    var c, c', k := After(s, run, n), After(s, run, n + 1), On(obj, holder);
    assert c' == Apply(c, run[n]);
    LeaseStep(c, run[n], holder, obj);
    StepForward(c, run[n], obj);
    LeaseConstant(s, run, n);
    if run[n] == DoGrant(holder, obj) {
      LastGrantNow(run, n, n + 1, holder, obj);
    } else if !RecallsFrom(run[n], holder, obj) {
      forall i: nat ensures LastGrant(run, i, n + 1, holder, obj) <==> LastGrant(run, i, n, holder, obj) {
        LastGrantKept(run, i, n, holder, obj);
      }
    } else {
      LastGrantGone(run, n, n + 1, holder, obj);
    }
  }

  lemma ExplainedFirst(s: State, run: seq<Action>, holder: Name, obj: Name)
    requires s.leases == map[]
    ensures Explained(s, run, 0, holder, obj)
  {
  }

  lemma {:induction false} RunExplains(s: State, run: seq<Action>, n: nat, holder: Name, obj: Name)
    requires n <= |run| && s.leases == map[]
    ensures Explained(s, run, n, holder, obj)
  {
    hide Explained;
    if n > 0 {
      RunExplains(s, run, n - 1, holder, obj);
      ExplainedNext(s, run, n - 1, holder, obj);
    } else {
      ExplainedFirst(s, run, holder, obj);
    }
  }

  /**
   In every interleaving: a holder is trusted with a version exactly if that was the version when it was last granted a
   lease, the lease has not run out, and nobody else has recalled the object since. Its own mutations recall nothing of it.
   */
  lemma TrustedIff(s: State, run: seq<Action>, n: nat, holder: Name, obj: Name, v: nat)
    requires n <= |run| && s.leases == map[]
    ensures TrustedVersion(After(s, run, n), holder, obj) == Some(v) <==>
            exists i :: LastGrant(run, i, n, holder, obj) && v == Version(After(s, run, i), obj) && After(s, run, n).now <= After(s, run, i).now + s.lease
  {
    RunExplains(s, run, n, holder, obj);
  }

  // --- recall ---------------------------------------------------------------------------------------

  /** Whom a recall asks: everyone else who is trusted and has a handler. */
  lemma RecalledIff(s: State, obj: Name, mutator: Name, holder: Name)
    ensures holder in Recalled(s, obj, mutator) <==> holder != mutator && TrustedVersion(s, holder, obj).Some? && On(obj, holder) in s.recallers
  {
    if holder != mutator && TrustedVersion(s, holder, obj).Some? && On(obj, holder) in s.recallers {
      assert Revoked(s, obj, mutator, On(obj, holder));
    }
  }

  /** What a recall takes away: the trust of everyone else in this object, nothing of the mutator's and nothing elsewhere. */
  lemma RecallTakes(s: State, obj: Name, mutator: Name, holder: Name, x: Name)
    ensures TrustedVersion(IssueRecall(s, obj, mutator), holder, x) == if x == obj && holder != mutator then None else TrustedVersion(s, holder, x)
  {
    assert On(x, holder).obj == x && On(x, holder).holder == holder;
  }

  /** Nothing is pending when nobody is asked, so a mutator never waits for itself. */
  lemma RecallPends(s: State, obj: Name, mutator: Name)
    ensures var s' := IssueRecall(s, obj, mutator);
            if forall h :: h != mutator && TrustedVersion(s, h, obj).Some? ==> On(obj, h) !in s.recallers
            then s'.pending == s.pending && s'.nextRecall == s.nextRecall
            else s'.nextRecall == s.nextRecall + 1 && s'.nextRecall in s'.pending && mutator !in s'.pending[s'.nextRecall].awaiting
  {
    if h: Name :| h != mutator && TrustedVersion(s, h, obj).Some? && On(obj, h) in s.recallers {
      RecalledIff(s, obj, mutator, h);
      RecalledIff(s, obj, mutator, mutator);
    } else {
      forall h ensures h !in Recalled(s, obj, mutator) {
        RecalledIff(s, obj, mutator, h);
      }
      assert Recalled(s, obj, mutator) == {};
    }
  }

  /** Who has a handler: those whose last call about it registered one. */
  lemma {:induction false} HandlerIff(s: State, run: seq<Action>, n: nat, holder: Name, obj: Name)
    requires n <= |run| && s.recallers == {}
    ensures On(obj, holder) in After(s, run, n).recallers <==>
            exists i :: 0 <= i < n && run[i] == DoSubscribeRecall(holder, obj) && forall j :: i < j < n ==> run[j] != DoUnsubscribeRecall(holder, obj)
  {
    if n > 0 {
      HandlerIff(s, run, n - 1, holder, obj);
      HandlerStep(After(s, run, n - 1), run[n - 1], holder, obj);
      if run[n - 1] != DoSubscribeRecall(holder, obj) && run[n - 1] != DoUnsubscribeRecall(holder, obj) {
        if i :| 0 <= i < n - 1 && run[i] == DoSubscribeRecall(holder, obj) && forall j :: i < j < n - 1 ==> run[j] != DoUnsubscribeRecall(holder, obj) {
          assert forall j :: i < j < n ==> run[j] != DoUnsubscribeRecall(holder, obj);
        }
        if i :| 0 <= i < n && run[i] == DoSubscribeRecall(holder, obj) && forall j :: i < j < n ==> run[j] != DoUnsubscribeRecall(holder, obj) {
          assert i < n - 1;
        }
      }
    }
  }

  lemma HandlerStep(s: State, a: Action, holder: Name, obj: Name)
    ensures On(obj, holder) in Apply(s, a).recallers <==>
            a == DoSubscribeRecall(holder, obj) || (On(obj, holder) in s.recallers && a != DoUnsubscribeRecall(holder, obj))
  {
  }

  /** An acknowledgement that comes after the recall was given up changes nothing. */
  lemma LateAckIgnored(s: State, id: nat, holder: Name)
    ensures AckRecall(FinishRecall(s, id), id, holder) == FinishRecall(s, id)
    ensures forall x :: x != id ==> (x in FinishRecall(s, id).pending <==> x in s.pending)
  {
  }

  // --- subscribers -----------------------------------------------------------------------------------

  /** A holder is subscribed exactly if it once asked while the object had room, or was subscribed already. */
  lemma {:induction false} SubscribedIff(s: State, run: seq<Action>, n: nat, holder: Name, obj: Name)
    requires n <= |run| && s.subscribers == {}
    ensures On(obj, holder) in After(s, run, n).subscribers <==>
            exists i :: 0 <= i < n && run[i] == DoSubscribe(holder, obj) && |Subscribers(After(s, run, i), obj)| < 64
  {
    if n > 0 {
      var c := After(s, run, n - 1);
      SubscribedIff(s, run, n - 1, holder, obj);
      SubscribeStep(c, run[n - 1], holder, obj);
      if run[n - 1] == DoSubscribe(holder, obj) && |Subscribers(c, obj)| < 64 {
        assert run[n - 1] == DoSubscribe(holder, obj) && |Subscribers(After(s, run, n - 1), obj)| < 64;
      }
    }
  }

  lemma SubscribeStep(s: State, a: Action, holder: Name, obj: Name)
    ensures On(obj, holder) in Apply(s, a).subscribers <==>
            On(obj, holder) in s.subscribers || (a == DoSubscribe(holder, obj) && |Subscribers(s, obj)| < 64)
  {
    assert holder in Subscribers(s, obj) <==> On(obj, holder) in s.subscribers;
  }

  // --- negative entries -------------------------------------------------------------------------------

  /** The last miss recorded under a key, with no bump of the directory since. */
  ghost predicate LastMiss(run: seq<Action>, i: nat, n: nat, dir: Name, key: string)
    requires n <= |run|
  {
    && i < n && Misses(run[i], dir, key)
    && forall j :: i < j < n ==> !Misses(run[j], dir, key) && run[j] != DoBumpDir(dir)
  }

  predicate Misses(a: Action, dir: Name, key: string) {
    a.DoGrantNegative? && a.dir == dir && NegKeyOf(a.holder, a.name) == key
  }

  lemma MissStep(s: State, a: Action, dir: Name, key: string)
    ensures var k := NegKey(dir, key); var s' := Apply(s, a);
            if Misses(a, dir, key) then k in s'.neg && s'.neg[k] == Negative(DirVersion(s, dir), s.now + s.lease)
            else (k in s'.neg <==> k in s.neg) && (k in s.neg ==> s'.neg[k] == s.neg[k])
  {
  }

  ghost predicate Recorded(s: State, run: seq<Action>, n: nat, dir: Name, key: string)
    requires n <= |run|
  {
    var c, k := After(s, run, n), NegKey(dir, key);
    && (k in c.neg ==> c.neg[k].dirver <= DirVersion(c, dir))
    && (k in c.neg && c.neg[k].dirver == DirVersion(c, dir) ==>
          exists i :: LastMiss(run, i, n, dir, key) && c.neg[k].expiry == After(s, run, i).now + s.lease)
    && (forall i :: LastMiss(run, i, n, dir, key) ==>
          k in c.neg && c.neg[k] == Negative(DirVersion(c, dir), After(s, run, i).now + s.lease))
  }

  lemma LastMissKept(run: seq<Action>, i: nat, n: nat, dir: Name, key: string)
    requires n < |run| && !Misses(run[n], dir, key) && run[n] != DoBumpDir(dir)
    ensures LastMiss(run, i, n + 1, dir, key) <==> LastMiss(run, i, n, dir, key)
  {
  }

  lemma LastMissNow(run: seq<Action>, n: nat, m: nat, dir: Name, key: string)
    requires n < |run| && m == n + 1 && Misses(run[n], dir, key)
    ensures forall i: nat :: LastMiss(run, i, m, dir, key) <==> i == n
  {
  }

  lemma LastMissGone(run: seq<Action>, n: nat, m: nat, dir: Name, key: string)
    requires n < |run| && m == n + 1 && run[n] == DoBumpDir(dir)
    ensures forall i: nat :: !LastMiss(run, i, m, dir, key)
  {
  }

  lemma RecordedNext(s: State, run: seq<Action>, n: nat, dir: Name, key: string)
    requires n < |run| && Recorded(s, run, n, dir, key)
    ensures Recorded(s, run, n + 1, dir, key)
  {
    hide Apply, NegKeyOf, LastMiss, DirVersion;
    var c, c' := After(s, run, n), After(s, run, n + 1);
    assert c' == Apply(c, run[n]);
    MissStep(c, run[n], dir, key);
    VersionStep(c, run[n], dir);
    LeaseConstant(s, run, n);
    if Misses(run[n], dir, key) {
      LastMissNow(run, n, n + 1, dir, key);
    } else if run[n] != DoBumpDir(dir) {
      forall i: nat ensures LastMiss(run, i, n + 1, dir, key) <==> LastMiss(run, i, n, dir, key) {
        LastMissKept(run, i, n, dir, key);
      }
    } else {
      LastMissGone(run, n, n + 1, dir, key);
    }
  }

  lemma RecordedFirst(s: State, run: seq<Action>, dir: Name, key: string)
    requires s.neg == map[]
    ensures Recorded(s, run, 0, dir, key)
  {
  }

  lemma {:induction false} RunRecords(s: State, run: seq<Action>, n: nat, dir: Name, key: string)
    requires n <= |run| && s.neg == map[]
    ensures Recorded(s, run, n, dir, key)
  {
    hide Recorded;
    if n > 0 {
      RunRecords(s, run, n - 1, dir, key);
      RecordedNext(s, run, n - 1, dir, key);
    } else {
      RecordedFirst(s, run, dir, key);
    }
  }

  /**
   In every interleaving: a miss is trusted exactly if one was recorded under its key, the lease of the last such has not
   run out, and the directory has not been bumped since.
   */
  lemma NegativeTrustedIff(s: State, run: seq<Action>, n: nat, holder: Name, dir: Name, name: Name)
    requires n <= |run| && s.neg == map[]
    ensures NegativeTrusted(After(s, run, n), holder, dir, name) <==>
            exists i :: LastMiss(run, i, n, dir, NegKeyOf(holder, name)) && After(s, run, n).now <= After(s, run, i).now + s.lease
  {
    RunRecords(s, run, n, dir, NegKeyOf(holder, name));
  }
}
