/**
 The lease manager (pkg/coherence): leases, versions, blocking recall and negative entries, as a state machine whose
 actions are the manager's critical sections, so that every interleaving of callers is a sequence of them.
 */
module Coherence {
  import opened Base

  type Name = string

  /** An object as one holder sees it; the source's maps of maps are keyed by this pair. */
  datatype On = On(obj: Name, holder: Name)

  datatype Lease = Lease(version: nat, expiry: Time)

  datatype Negative = Negative(dirver: nat, expiry: Time)

  datatype NegKey = NegKey(dir: Name, key: string)

  /** A recall that blocks a mutation; `closes` counts the closings of its done channel. */
  datatype Pending = Pending(obj: Name, recalled: set<Name>, awaiting: set<Name>, closed: bool, closes: nat)

  datatype State = State(
    now: Time, lease: Time, leases: map<On, Lease>, subscribers: set<On>, versions: map<Name, nat>,
    dirver: map<Name, nat>, neg: map<NegKey, Negative>, recallers: set<On>,
    nextRecall: nat, pending: map<nat, Pending>)

  const REGISTRY_CAP := 64

  function Start(now: Time, lease: Time): State {
    State(now, lease, map[], {}, map[], map[], map[], {}, 0, map[])
  }

  function Version(s: State, obj: Name): nat {
    if obj in s.versions then s.versions[obj] else 0
  }

  function DirVersion(s: State, dir: Name): nat {
    if dir in s.dirver then s.dirver[dir] else 0
  }

  function Grant(s: State, holder: Name, obj: Name): State {
    s.(leases := s.leases[On(obj, holder) := Lease(Version(s, obj), s.now + s.lease)])
  }

  function TrustedVersion(s: State, holder: Name, obj: Name): Option<nat> {
    var k := On(obj, holder);
    if k !in s.leases || s.now > s.leases[k].expiry then None else Some(s.leases[k].version)
  }

  /** The second section of Bump; the first only reads the subscribers. */
  function Bump(s: State, obj: Name): State {
    s.(versions := s.versions[obj := Version(s, obj) + 1])
  }

  function Subscribers(s: State, obj: Name): set<Name> {
    set k | k in s.subscribers && k.obj == obj :: k.holder
  }

  function Subscribe(s: State, holder: Name, obj: Name): State {
    if holder !in Subscribers(s, obj) && |Subscribers(s, obj)| >= REGISTRY_CAP then s
    else s.(subscribers := s.subscribers + {On(obj, holder)})
  }

  /** Whose lease a recall revokes: everyone's but the mutator's, unless it has lapsed already. */
  predicate Revoked(s: State, obj: Name, mutator: Name, k: On) {
    k in s.leases && k.obj == obj && k.holder != mutator && s.now <= s.leases[k].expiry
  }

  /** Who is asked: the revoked holders with a handler. */
  function Recalled(s: State, obj: Name, mutator: Name): set<Name> {
    set k | k in s.leases && Revoked(s, obj, mutator, k) && k in s.recallers :: k.holder
  }

  function Unleased(s: State, obj: Name, mutator: Name): map<On, Lease> {
    map k | k in s.leases && !Revoked(s, obj, mutator, k) :: s.leases[k]
  }

  /** The first section of Recall: leases go at once; a recall is pending only if someone was asked. */
  function IssueRecall(s: State, obj: Name, mutator: Name): State {
    var asked := Recalled(s, obj, mutator);
    var s' := s.(leases := Unleased(s, obj, mutator));
    if asked == {} then s'
    else s'.(nextRecall := s.nextRecall + 1, pending := s.pending[s.nextRecall + 1 := Pending(obj, asked, asked, false, 0)])
  }

  function AckRecall(s: State, id: nat, holder: Name): State {
    if id !in s.pending then s else
      var p := s.pending[id];
      var awaiting := p.awaiting - {holder};
      var p' := if awaiting == {} && !p.closed then p.(awaiting := awaiting, closed := true, closes := p.closes + 1)
                else p.(awaiting := awaiting);
      s.(pending := s.pending[id := p'])
  }

  /** The last section of Recall, after the done channel, the deadline or a cancellation. */
  function FinishRecall(s: State, id: nat): State {
    s.(pending := s.pending - {id})
  }

  function Acked(p: Pending): set<Name> {
    p.recalled - p.awaiting
  }

  function TimedOut(p: Pending): set<Name> {
    p.recalled * p.awaiting
  }

  function BumpDir(s: State, dir: Name): State {
    s.(dirver := s.dirver[dir := DirVersion(s, dir) + 1])
  }

  const NUL: char := 0 as char

  function NegKeyOf(holder: Name, name: Name): string {
    holder + [NUL] + name
  }

  function GrantNegative(s: State, holder: Name, dir: Name, name: Name): State {
    s.(neg := s.neg[NegKey(dir, NegKeyOf(holder, name)) := Negative(DirVersion(s, dir), s.now + s.lease)])
  }

  predicate NegativeTrusted(s: State, holder: Name, dir: Name, name: Name) {
    var k := NegKey(dir, NegKeyOf(holder, name));
    k in s.neg && s.neg[k].dirver == DirVersion(s, dir) && s.now <= s.neg[k].expiry
  }

  // --- runs --------------------------------------------------------------------------

  datatype Action =
    | Tick(dt: nat)
    | DoGrant(holder: Name, obj: Name)
    | DoBump(obj: Name)
    | DoSubscribe(holder: Name, obj: Name)
    | DoSubscribeRecall(holder: Name, obj: Name)
    | DoUnsubscribeRecall(holder: Name, obj: Name)
    | DoIssue(obj: Name, mutator: Name)
    | DoAck(id: nat, holder: Name)
    | DoFinish(id: nat)
    | DoBumpDir(dir: Name)
    | DoGrantNegative(holder: Name, dir: Name, name: Name)

  function Apply(s: State, a: Action): State {
    match a
    case Tick(dt) => s.(now := s.now + dt)
    case DoGrant(holder, obj) => Grant(s, holder, obj)
    case DoBump(obj) => Bump(s, obj)
    case DoSubscribe(holder, obj) => Subscribe(s, holder, obj)
    case DoSubscribeRecall(holder, obj) => s.(recallers := s.recallers + {On(obj, holder)})
    case DoUnsubscribeRecall(holder, obj) => s.(recallers := s.recallers - {On(obj, holder)})
    case DoIssue(obj, mutator) => IssueRecall(s, obj, mutator)
    case DoAck(id, holder) => AckRecall(s, id, holder)
    case DoFinish(id) => FinishRecall(s, id)
    case DoBumpDir(dir) => BumpDir(s, dir)
    case DoGrantNegative(holder, dir, name) => GrantNegative(s, holder, dir, name)
  }

  /** The state after the first `n` actions of a run. */
  function After(s: State, run: seq<Action>, n: nat): State
    requires n <= |run|
  {
    if n == 0 then s else Apply(After(s, run, n - 1), run[n - 1])
  }

  // --- leases ------------------------------------------------------------------------

  /** Every lease was granted at a moment of the run: its version was the current one then. */
  ghost predicate GrantedAt(s: State, run: seq<Action>, n: nat, k: On, l: Lease, i: nat)
    requires n <= |run|
  {
    i <= n && Version(After(s, run, i), k.obj) == l.version && After(s, run, i).now + s.lease == l.expiry
  }

  lemma {:induction false} LeaseWasGranted(s: State, run: seq<Action>, n: nat, k: On) returns (i: nat)
    requires n <= |run| && s.leases == map[] && k in After(s, run, n).leases
    ensures GrantedAt(s, run, n, k, After(s, run, n).leases[k], i) && After(s, run, n).lease == s.lease
  {
    LeaseConstant(s, run, n);
    var before := After(s, run, n - 1);
    if run[n - 1] == DoGrant(k.holder, k.obj) {
      LeaseConstant(s, run, n - 1);
      i := n;
    } else {
      assert k in before.leases && before.leases[k] == After(s, run, n).leases[k];
      i := LeaseWasGranted(s, run, n - 1, k);
    }
  }

  lemma StepForward(s: State, a: Action, obj: Name)
    ensures Apply(s, a).lease == s.lease && s.now <= Apply(s, a).now
    ensures Version(s, obj) <= Version(Apply(s, a), obj) && DirVersion(s, obj) <= DirVersion(Apply(s, a), obj)
  {
  }

  lemma {:induction false} LeaseConstant(s: State, run: seq<Action>, n: nat)
    requires n <= |run|
    ensures After(s, run, n).lease == s.lease
  {
    if n > 0 {
      LeaseConstant(s, run, n - 1);
      StepForward(After(s, run, n - 1), run[n - 1], "");
    }
  }

  /** Time and versions never go back, however Bumps interleave. */
  lemma {:induction false} NeverRegresses(s: State, run: seq<Action>, i: nat, n: nat, obj: Name)
    requires i <= n <= |run|
    ensures After(s, run, i).now <= After(s, run, n).now
    ensures Version(After(s, run, i), obj) <= Version(After(s, run, n), obj)
    ensures DirVersion(After(s, run, i), obj) <= DirVersion(After(s, run, n), obj)
    decreases n - i
  {
    if i < n {
      NeverRegresses(s, run, i, n - 1, obj);
      StepForward(After(s, run, n - 1), run[n - 1], obj);
    }
  }

  /**
   Bounded staleness, with no push delivered at all: a version a holder may trust was the authoritative one at some
   moment within the last lease duration, and is not ahead of the current one.
   */
  lemma {:induction false} TrustedIsRecent(s: State, run: seq<Action>, n: nat, holder: Name, obj: Name) returns (i: nat)
    requires n <= |run| && s.leases == map[] && TrustedVersion(After(s, run, n), holder, obj).Some?
    ensures i <= n && Version(After(s, run, i), obj) == TrustedVersion(After(s, run, n), holder, obj).value
    ensures After(s, run, n).now - s.lease <= After(s, run, i).now <= After(s, run, n).now
    ensures TrustedVersion(After(s, run, n), holder, obj).value <= Version(After(s, run, n), obj)
  {
    i := LeaseWasGranted(s, run, n, On(obj, holder));
    NeverRegresses(s, run, i, n, obj);
  }

  // --- recall ------------------------------------------------------------------------

  ghost predicate Regranted(run: seq<Action>, i: nat, n: nat, holder: Name, obj: Name)
    requires n <= |run|
  {
    exists j :: i <= j < n && run[j] == DoGrant(holder, obj)
  }

  /** Once a recall is issued, no holder but the mutator is trusted until it is granted a new lease. */
  lemma {:induction false} RecalledIsUntrusted(s: State, run: seq<Action>, i: nat, n: nat, obj: Name, mutator: Name, holder: Name)
    requires i < n <= |run| && run[i] == DoIssue(obj, mutator) && holder != mutator && !Regranted(run, i, n, holder, obj)
    ensures TrustedVersion(After(s, run, n), holder, obj) == None
    decreases n
  {
    if i < n - 1 {
      assert !Regranted(run, i, n - 1, holder, obj);
      RecalledIsUntrusted(s, run, i, n - 1, obj, mutator, holder);
    }
  }

  /** A pending recall waits for some of those it asked; its done channel is closed once, when nobody is left. */
  ghost predicate PendingOK(p: Pending) {
    && p.awaiting <= p.recalled && p.recalled != {}
    && (p.closed <==> p.awaiting == {}) && p.closes == if p.closed then 1 else 0
  }

  ghost predicate Inv(s: State) {
    && (forall id :: id in s.pending ==> 0 < id <= s.nextRecall && PendingOK(s.pending[id]))
    && (forall obj: Name :: |Subscribers(s, obj)| <= REGISTRY_CAP)
  }

  lemma SubscribeKeepsCap(s: State, holder: Name, obj: Name, x: Name)
    requires |Subscribers(s, x)| <= REGISTRY_CAP
    ensures |Subscribers(Subscribe(s, holder, obj), x)| <= REGISTRY_CAP
  {
    var s' := Subscribe(s, holder, obj);
    if s' != s {
      assert Subscribers(s', x) == if x == obj then Subscribers(s, x) + {holder} else Subscribers(s, x) by {
        assert On(obj, holder) in s'.subscribers;
        forall h | h in Subscribers(s, x) ensures h in Subscribers(s', x) {
          assert On(x, h) in s'.subscribers;
        }
      }
    }
  }

  lemma StepKeepsInv(s: State, a: Action)
    requires Inv(s)
    ensures Inv(Apply(s, a))
  {
    var s' := Apply(s, a);
    if a.DoSubscribe? {
      forall x: Name ensures |Subscribers(s', x)| <= REGISTRY_CAP {
        SubscribeKeepsCap(s, a.holder, a.obj, x);
      }
    } else {
      assert forall x: Name :: Subscribers(s', x) == Subscribers(s, x);
    }
  }

  lemma {:induction false} RunKeepsInv(s: State, run: seq<Action>, n: nat)
    requires n <= |run| && Inv(s)
    ensures Inv(After(s, run, n))
  {
    if n > 0 {
      RunKeepsInv(s, run, n - 1);
      StepKeepsInv(After(s, run, n - 1), run[n - 1]);
    }
  }

  lemma StartInv(now: Time, lease: Time)
    ensures Inv(Start(now, lease))
  {
    assert forall obj: Name :: Subscribers(Start(now, lease), obj) == {};
  }

  ghost predicate AckedSince(run: seq<Action>, i: nat, n: nat, id: nat, holder: Name)
    requires n <= |run|
  {
    exists j :: i <= j < n && run[j] == DoAck(id, holder)
  }

  lemma PendingNext(s: State, a: Action, id: nat)
    requires id in s.pending && id <= s.nextRecall && a != DoFinish(id)
    ensures id in Apply(s, a).pending && Apply(s, a).pending[id].recalled == s.pending[id].recalled
    ensures Apply(s, a).pending[id].awaiting == if a.DoAck? && a.id == id then s.pending[id].awaiting - {a.holder} else s.pending[id].awaiting
  {
  }

  /** Those asked that have not acknowledged yet. */
  ghost function Silent(run: seq<Action>, i: nat, n: nat, id: nat, asked: set<Name>): set<Name>
    requires n <= |run|
  {
    set h | h in asked && !AckedSince(run, i, n, id, h)
  }

  lemma SilentNext(run: seq<Action>, i: nat, n: nat, id: nat, asked: set<Name>)
    requires i <= n < |run|
    ensures Silent(run, i, n + 1, id, asked) ==
            if run[n].DoAck? && run[n].id == id then Silent(run, i, n, id, asked) - {run[n].holder} else Silent(run, i, n, id, asked)
  {
    forall h ensures AckedSince(run, i, n + 1, id, h) <==> AckedSince(run, i, n, id, h) || run[n] == DoAck(id, h) {
      if AckedSince(run, i, n, id, h) {
        var j :| i <= j < n && run[j] == DoAck(id, h);
        assert AckedSince(run, i, n + 1, id, h);
      }
    }
  }

  /**
   A recall, from the moment it is issued until it is finished: those it waits for are exactly those it asked that
   have not acknowledged since.
   */
  lemma {:induction false} RecallAwaits(s: State, run: seq<Action>, i: nat, n: nat, obj: Name, mutator: Name)
    requires i < n <= |run| && Inv(s) && run[i] == DoIssue(obj, mutator) && Recalled(After(s, run, i), obj, mutator) != {}
    requires forall j :: i < j < n ==> run[j] != DoFinish(After(s, run, i).nextRecall + 1)
    ensures var id := After(s, run, i).nextRecall + 1; var asked := Recalled(After(s, run, i), obj, mutator);
            && id in After(s, run, n).pending && After(s, run, n).pending[id].recalled == asked
            && After(s, run, n).pending[id].awaiting == Silent(run, i, n, id, asked)
  {
    var id, asked := After(s, run, i).nextRecall + 1, Recalled(After(s, run, i), obj, mutator);
    if i == n - 1 {
      IssuedIsPending(After(s, run, i), obj, mutator);
      assert Silent(run, i, n, id, asked) == asked;
    } else {
      RecallAwaits(s, run, i, n - 1, obj, mutator);
      RunKeepsInv(s, run, n - 1);
      PendingNext(After(s, run, n - 1), run[n - 1], id);
      SilentNext(run, i, n - 1, id, asked);
    }
  }

  lemma IssuedIsPending(s: State, obj: Name, mutator: Name)
    requires Recalled(s, obj, mutator) != {}
    ensures var asked := Recalled(s, obj, mutator);
            IssueRecall(s, obj, mutator).pending == s.pending[s.nextRecall + 1 := Pending(obj, asked, asked, false, 0)]
  {
  }

  /**
   What Recall reports: Acked and TimedOut split the asked holders by whether they acknowledged this recall, and its
   done channel has been closed once if all of them did and never otherwise.
   */
  lemma {:induction false} RecallOutcome(s: State, run: seq<Action>, i: nat, n: nat, obj: Name, mutator: Name)
    requires i < n <= |run| && Inv(s) && run[i] == DoIssue(obj, mutator) && Recalled(After(s, run, i), obj, mutator) != {}
    requires forall j :: i < j < n ==> run[j] != DoFinish(After(s, run, i).nextRecall + 1)
    ensures var id := After(s, run, i).nextRecall + 1; id in After(s, run, n).pending
    ensures var id := After(s, run, i).nextRecall + 1; var asked := Recalled(After(s, run, i), obj, mutator);
            var p := After(s, run, n).pending[id];
            && Acked(p) + TimedOut(p) == asked && Acked(p) !! TimedOut(p)
            && (forall h :: h in asked ==> (h in Acked(p) <==> AckedSince(run, i, n, id, h)))
            && p.closes == if TimedOut(p) == {} then 1 else 0
  {
    RecallAwaits(s, run, i, n, obj, mutator);
    RunKeepsInv(s, run, n);
  }

  // --- negative entries ----------------------------------------------------------------

  ghost predicate DirBumped(run: seq<Action>, i: nat, n: nat, dir: Name)
    requires n <= |run|
  {
    exists j :: i <= j < n && run[j] == DoBumpDir(dir)
  }

  /** A negative entry was recorded under its key at some moment, against the directory version of that moment. */
  ghost predicate NegatedAt(s: State, run: seq<Action>, n: nat, k: NegKey, e: Negative, i: nat)
    requires n <= |run|
  {
    && i < n && run[i].DoGrantNegative? && run[i].dir == k.dir && NegKeyOf(run[i].holder, run[i].name) == k.key
    && e.dirver == DirVersion(After(s, run, i), k.dir) && e.expiry == After(s, run, i).now + s.lease
  }

  lemma {:induction false} NegativeWasGranted(s: State, run: seq<Action>, n: nat, k: NegKey) returns (i: nat)
    requires n <= |run| && s.neg == map[] && k in After(s, run, n).neg
    ensures NegatedAt(s, run, n, k, After(s, run, n).neg[k], i)
  {
    var before := After(s, run, n - 1);
    LeaseConstant(s, run, n - 1);
    if run[n - 1].DoGrantNegative? && NegKey(run[n - 1].dir, NegKeyOf(run[n - 1].holder, run[n - 1].name)) == k {
      i := n - 1;
    } else {
      NegativeStays(before, run[n - 1], k);
      i := NegativeWasGranted(s, run, n - 1, k);
    }
  }

  lemma NegativeStays(s: State, a: Action, k: NegKey)
    requires k in Apply(s, a).neg && !(a.DoGrantNegative? && NegKey(a.dir, NegKeyOf(a.holder, a.name)) == k)
    ensures k in s.neg && s.neg[k] == Apply(s, a).neg[k]
  {
  }

  lemma {:induction false} BumpedIsNewer(s: State, run: seq<Action>, i: nat, n: nat, dir: Name)
    requires i <= n <= |run| && DirBumped(run, i, n, dir)
    ensures DirVersion(After(s, run, n), dir) > DirVersion(After(s, run, i), dir)
  {
    var j :| i <= j < n && run[j] == DoBumpDir(dir);
    NeverRegresses(s, run, i, j, dir);
    NeverRegresses(s, run, j + 1, n, dir);
  }

  /**
   A trusted negative entry was recorded for the same key within the last lease duration, and no bump of its
   directory has happened since.
   */
  lemma {:induction false} TrustedNegative(s: State, run: seq<Action>, n: nat, holder: Name, dir: Name, name: Name) returns (i: nat)
    requires n <= |run| && s.neg == map[] && NegativeTrusted(After(s, run, n), holder, dir, name)
    ensures i < n && run[i].DoGrantNegative? && run[i].dir == dir
    ensures NegKeyOf(run[i].holder, run[i].name) == NegKeyOf(holder, name) && !DirBumped(run, i, n, dir)
    ensures After(s, run, n).now - s.lease <= After(s, run, i).now
  {
    i := NegativeWasGranted(s, run, n, NegKey(dir, NegKeyOf(holder, name)));
    if DirBumped(run, i, n, dir) {
      BumpedIsNewer(s, run, i, n, dir);
    }
  }

  /** `a` followed by a NUL is a prefix of `b`, and what is left of `b` ends the other pair's name. */
  ghost predicate Splits(h: Name, n: Name, h': Name, n': Name) {
    exists mid: string :: h' == h + [NUL] + mid && n == mid + [NUL] + n'
  }

  /** Two pairs share a key exactly when they are the same pair or one holder runs on, across a NUL, into the other's name. */
  lemma NegKeysCollideIff(h: Name, n: Name, h': Name, n': Name)
    ensures NegKeyOf(h, n) == NegKeyOf(h', n') <==> (h == h' && n == n') || Splits(h, n, h', n') || Splits(h', n', h, n)
  {
    if NegKeyOf(h, n) == NegKeyOf(h', n') {
      if |h| < |h'| {
        CollisionSplits(h, n, h', n');
      } else if |h'| < |h| {
        CollisionSplits(h', n', h, n);
      } else {
        assert h == NegKeyOf(h, n)[..|h|] && h' == NegKeyOf(h', n')[..|h'|];
        assert n == NegKeyOf(h, n)[|h| + 1..] && n' == NegKeyOf(h', n')[|h'| + 1..];
      }
    }
    if Splits(h, n, h', n') {
      SplitCollides(h, n, h', n');
    }
    if Splits(h', n', h, n) {
      SplitCollides(h', n', h, n);
    }
  }

  lemma CollisionSplits(h: Name, n: Name, h': Name, n': Name)
    requires NegKeyOf(h, n) == NegKeyOf(h', n') && |h| < |h'|
    ensures Splits(h, n, h', n')
  {
    var k := NegKeyOf(h, n);
    var mid := k[|h| + 1..|h'|];
    assert h' == k[..|h'|] && k[|h|] == NUL && k[|h'|] == NUL;
    assert k[..|h'|] == h + [NUL] + mid;
    assert n == k[|h| + 1..] && n' == k[|h'| + 1..];
    assert k[|h| + 1..] == mid + [NUL] + n';
  }

  lemma SplitCollides(h: Name, n: Name, h': Name, n': Name)
    requires Splits(h, n, h', n')
    ensures NegKeyOf(h, n) == NegKeyOf(h', n')
  {
    var mid: string :| h' == h + [NUL] + mid && n == mid + [NUL] + n';
    assert h + [NUL] + (mid + [NUL] + n') == h + [NUL] + mid + [NUL] + n';
  }

  /** Names a filesystem can pass hold no NUL, so their keys tell holders and names apart. */
  lemma NegKeysDistinct(h: Name, n: Name, h': Name, n': Name)
    requires NUL !in n && NUL !in n' && NegKeyOf(h, n) == NegKeyOf(h', n')
    ensures h == h' && n == n'
  {
    NegKeysCollideIff(h, n, h', n');
    SplitHasNul(h, n, h', n');
    SplitHasNul(h', n', h, n);
  }

  lemma SplitHasNul(h: Name, n: Name, h': Name, n': Name)
    ensures Splits(h, n, h', n') ==> NUL in n
  {
    if Splits(h, n, h', n') {
      var mid: string :| h' == h + [NUL] + mid && n == mid + [NUL] + n';
      assert n[|mid|] == NUL;
    }
  }

  // --- the manager -----------------------------------------------------------------------

  /** Each method is one critical section of the manager; Bump and Recall are two each. */
  class Manager {
    var now: Time
    const d: Time
    var leases: map<On, Lease>
    var subscribers: set<On>
    var versions: map<Name, nat>
    var dirver: map<Name, nat>
    var neg: map<NegKey, Negative>
    var recallers: set<On>
    var nextRecallID: nat
    var pending: map<nat, Pending>

    ghost function View(): State
      reads this
    {
      State(now, d, leases, subscribers, versions, dirver, neg, recallers, nextRecallID, pending)
    }

    constructor (clock: Time, d: Time)
      ensures View() == Start(clock, d)
    {
      now, this.d := clock, d;
      leases, subscribers, versions, dirver, neg, recallers, nextRecallID, pending := map[], {}, map[], map[], map[], {}, 0, map[];
    }

    method GrantLease(holder: Name, obj: Name) returns (v: nat)
      modifies this
      ensures View() == Grant(old(View()), holder, obj) && v == Version(View(), obj)
    {
      v := if obj in versions then versions[obj] else 0;
      leases := leases[On(obj, holder) := Lease(v, now + d)];
    }

    method Trusted(holder: Name, obj: Name) returns (v: Option<nat>)
      ensures v == TrustedVersion(View(), holder, obj)
    {
      var k := On(obj, holder);
      if k !in leases { return None; }
      if now > leases[k].expiry { return None; }
      v := Some(leases[k].version);
    }

    /** Refused once the object has as many subscribers as the registry holds. */
    method SubscribeTo(holder: Name, obj: Name) returns (ok: bool)
      modifies this
      ensures View() == Subscribe(old(View()), holder, obj) && (ok <==> On(obj, holder) in subscribers)
    {
      var subs := set k | k in subscribers && k.obj == obj :: k.holder;
      ghost var s := View();
      assert subs == Subscribers(s, obj);
      assert holder in subs <==> On(obj, holder) in subscribers;
      if holder !in subs && |subs| >= REGISTRY_CAP { return false; }
      subscribers := subscribers + {On(obj, holder)};
      ok := true;
    }

    method FinishBump(obj: Name) returns (v: nat)
      modifies this
      ensures View() == Bump(old(View()), obj) && v == Version(View(), obj) == Version(old(View()), obj) + 1
    {
      v := (if obj in versions then versions[obj] else 0) + 1;
      versions := versions[obj := v];
    }

    /** Every other holder's current lease goes; those with a handler are to be asked. */
    method Revoke(obj: Name, mutator: Name) returns (recalled: set<Name>)
      modifies this`leases
      ensures leases == Unleased(old(View()), obj, mutator) && recalled == Recalled(old(View()), obj, mutator)
    {
      ghost var s := View();
      recalled := {};
      var todo := leases.Keys;
      UnleasedNone(s, obj, mutator);
      while todo != {}
        invariant todo <= s.leases.Keys
        invariant leases == UnleasedBut(s, obj, mutator, todo) && recalled == RecalledBut(s, obj, mutator, todo)
        decreases |todo|
      {
        var k :| k in todo;
        RecalledNext(s, obj, mutator, todo, k);
        UnleasedNext(s, obj, mutator, todo, k);
        if k.obj == obj && k.holder != mutator && now <= leases[k].expiry {
          leases := leases - {k};
          if k in recallers {
            recalled := recalled + {k.holder};
          }
        }
        todo := todo - {k};
      }
      RevokedAll(s, obj, mutator);
    }

    /** Revoke, then decide whom to ask; the pending entry exists only if there is someone. */
    method BeginRecall(obj: Name, mutator: Name) returns (id: Option<nat>, recalled: set<Name>)
      modifies this
      ensures View() == IssueRecall(old(View()), obj, mutator) && recalled == Recalled(old(View()), obj, mutator)
      ensures id == if recalled == {} then None else Some(old(nextRecallID) + 1)
    {
      recalled := Revoke(obj, mutator);
      id := None;
      if recalled != {} {
        nextRecallID := nextRecallID + 1;
        pending := pending[nextRecallID := Pending(obj, recalled, recalled, false, 0)];
        id := Some(nextRecallID);
      }
    }

    method Ack(id: nat, holder: Name)
      modifies this
      ensures View() == AckRecall(old(View()), id, holder)
    {
      if id !in pending { return; }
      var p := pending[id];
      p := p.(awaiting := p.awaiting - {holder});
      if p.awaiting == {} && !p.closed {
        p := p.(closed := true, closes := p.closes + 1);
      }
      pending := pending[id := p];
    }

    /** Who answered and who did not; the lists the source sorts are sets here. */
    method EndRecall(id: nat) returns (acked: set<Name>, timedOut: set<Name>)
      requires id in pending
      modifies this
      ensures View() == FinishRecall(old(View()), id)
      ensures acked == Acked(old(View()).pending[id]) && timedOut == TimedOut(old(View()).pending[id])
    {
      var p := pending[id];
      pending := pending - {id};
      acked, timedOut := {}, {};
      var todo := p.recalled;
      while todo != {}
        invariant todo <= p.recalled
        invariant acked == (p.recalled - todo) - p.awaiting && timedOut == (p.recalled - todo) * p.awaiting
        decreases |todo|
      {
        var h :| h in todo;
        if h in p.awaiting {
          timedOut := timedOut + {h};
        } else {
          acked := acked + {h};
        }
        todo := todo - {h};
      }
    }

    method BumpDirectory(dir: Name) returns (v: nat)
      modifies this
      ensures View() == BumpDir(old(View()), dir) && v == DirVersion(View(), dir)
    {
      v := (if dir in dirver then dirver[dir] else 0) + 1;
      dirver := dirver[dir := v];
    }

    method RecordNegative(holder: Name, dir: Name, name: Name)
      modifies this
      ensures View() == GrantNegative(old(View()), holder, dir, name)
    {
      var seen := if dir in dirver then dirver[dir] else 0;
      neg := neg[NegKey(dir, holder + [NUL] + name) := Negative(seen, now + d)];
    }

    method TrustsNegative(holder: Name, dir: Name, name: Name) returns (ok: bool)
      ensures ok == NegativeTrusted(View(), holder, dir, name)
    {
      var k := NegKey(dir, holder + [NUL] + name);
      if k !in neg { return false; }
      if neg[k].dirver != if dir in dirver then dirver[dir] else 0 { return false; }
      ok := !(now > neg[k].expiry);
    }
  }

  ghost function UnleasedBut(s: State, obj: Name, mutator: Name, todo: set<On>): map<On, Lease> {
    map k | k in s.leases && (k in todo || !Revoked(s, obj, mutator, k)) :: s.leases[k]
  }

  lemma UnleasedNone(s: State, obj: Name, mutator: Name)
    ensures UnleasedBut(s, obj, mutator, s.leases.Keys) == s.leases && RecalledBut(s, obj, mutator, s.leases.Keys) == {}
  {
  }

  lemma UnleasedNext(s: State, obj: Name, mutator: Name, todo: set<On>, k: On)
    requires k in todo && k in s.leases
    ensures var m := UnleasedBut(s, obj, mutator, todo);
            && k in m && m[k] == s.leases[k]
            && UnleasedBut(s, obj, mutator, todo - {k}) == if Revoked(s, obj, mutator, k) then m - {k} else m
  {
  }

  lemma RevokedAll(s: State, obj: Name, mutator: Name)
    ensures UnleasedBut(s, obj, mutator, {}) == Unleased(s, obj, mutator)
    ensures RecalledBut(s, obj, mutator, {}) == Recalled(s, obj, mutator)
  {
  }

  ghost function RecalledBut(s: State, obj: Name, mutator: Name, todo: set<On>): set<Name> {
    set k | k in s.leases && k !in todo && Revoked(s, obj, mutator, k) && k in s.recallers :: k.holder
  }

  lemma RecalledNext(s: State, obj: Name, mutator: Name, todo: set<On>, k: On)
    requires k in todo && k in s.leases
    ensures RecalledBut(s, obj, mutator, todo - {k}) ==
            RecalledBut(s, obj, mutator, todo) + if Revoked(s, obj, mutator, k) && k in s.recallers then {k.holder} else {}
  {
    var r, r' := RecalledBut(s, obj, mutator, todo), RecalledBut(s, obj, mutator, todo - {k});
    forall h | h in r ensures h in r' {
      var j :| j in s.leases && j !in todo && Revoked(s, obj, mutator, j) && j in s.recallers && j.holder == h;
      assert j !in todo - {k};
    }
    if Revoked(s, obj, mutator, k) && k in s.recallers {
      assert k !in todo - {k};
      assert k.holder in r';
    }
  }
}
