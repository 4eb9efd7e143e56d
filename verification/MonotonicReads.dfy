/**
 Whether what a client answers of an inode can go back in time (pkg/mds/client.go): `store` replaces whatever is there as
 long as the epoch is the same, so of two responses the one read first can be stored last.
 */
module MonotonicReads {
  import opened Base
  import opened Namespace
  import opened LeaseCache
  import opened Protocol
  import opened RecallSafety
  import opened InodeCoherence
  import opened ProtocolLimits

  /** What the client holds of the inode at step `n` it stored last at step `s`, and the authority had read it at step `r`. */
  ghost predicate Shows(run: seq<World>, acts: seq<Action>, n: nat, k: ClientID, id: InodeID, s: nat, r: nat)
    requires |run| == |acts| + 1 && n < |run|
  {
    && r < s < n && InoObj(id) in ClientOf(run[n], k).cache
    && var e := ClientOf(run[n], k).cache[InoObj(id)];
       && Puts(run[s], acts[s], k, id, e) && InodeCoherence.Holds(run[r], id, e.record)
       && acts[r] == (if acts[s].KeepInode? then ReadInode(acts[s].flight) else ReadRecord(acts[s].flight))
       && forall m, x :: s < m < n ==> !Puts(run[m], acts[m], k, id, x)
  }

  lemma PutRead(run: seq<World>, acts: seq<Action>, s: nat, k: ClientID, id: InodeID, e: Entry) returns (r: nat)
    requires IsRun(run, acts) && s < |acts| && Initial(run[0]) && Puts(run[s], acts[s], k, id, e)
    ensures r < s && InodeCoherence.Holds(run[r], id, e.record)
    ensures acts[r] == if acts[s].KeepInode? then ReadInode(acts[s].flight) else ReadRecord(acts[s].flight)
  {
    hide Step, Initial, Epoch;
    var q;
    if acts[s].KeepInode? {
      q, r := GetHistory(run, acts, s, acts[s].flight);
      NotAsk(run, acts, s, q, r, k, id, e.record);
    } else {
      q, r := LookupHistory(run, acts, s, acts[s].flight);
    }
  }

  lemma NotAsk(run: seq<World>, acts: seq<Action>, s: nat, q: nat, r: nat, k: ClientID, id: InodeID, rec: InodeRecord)
    requires |run| == |acts| + 1 && s < |run| && WasCurrent(run, acts, s, k, id, rec, q, r) && acts[q].AskInode?
    ensures acts[r] == ReadInode(run[q].issued)
  {
  }

  /** Every record a client holds is shown so. */
  lemma {:induction false} ShownAt(run: seq<World>, acts: seq<Action>, n: nat, k: ClientID, id: InodeID) returns (s: nat, r: nat)
    requires IsRun(run, acts) && n < |run| && Initial(run[0]) && InoObj(id) in ClientOf(run[n], k).cache
    ensures Shows(run, acts, n, k, id, s, r)
  {
    hide Step, Initial, Puts, DropsIt, InodeCoherence.Holds;
    InitialIsEmpty(run[0]);
    s := n - 1;
    var e := ClientOf(run[n], k).cache[InoObj(id)];
    assert Step(run[s], acts[s], run[s + 1]);
    CacheOfStep(run[s], acts[s], run[n], k, id);
    if x: Entry :| Puts(run[s], acts[s], k, id, x) {
      PutsStored(run[s], acts[s], run[n], k, id, x);
      r := PutRead(run, acts, s, k, id, e);
    } else {
      PutsOf(run[s], acts[s], k, id, e);
      s, r := ShownAt(run, acts, n - 1, k, id);
    }
  }

  lemma PutsOf(w: World, a: Action, k: ClientID, id: InodeID, e: Entry)
    requires CacheFrom(w, a, k, id, e) && !Puts(w, a, k, id, e)
    ensures InoObj(id) in ClientOf(w, k).cache && ClientOf(w, k).cache[InoObj(id)] == e
  {
  }

  /** The response of a request of this client about this inode arrives. */
  ghost predicate Arrives(w: World, a: Action, k: ClientID, id: InodeID) {
    || (a.KeepInode? && Enabled(w, a) && w.gets[a.flight].client == k && w.gets[a.flight].id == id)
    || (a.KeepRecord? && Enabled(w, a) && w.lookups[a.flight].client == k && w.lookups[a.flight].phase.id == id)
  }

  /** From when on a drop makes the client ignore the response: since it asked, for a Lookup since it read the epoch. */
  ghost predicate CountsFrom(run: seq<World>, acts: seq<Action>, q: nat, n: nat, k: ClientID, id: InodeID)
    requires |run| == |acts| + 1 && n < |acts|
  {
    && q < n
    && ((acts[n].KeepInode? && acts[q] == AskInode(k, id) && run[q].issued == acts[n].flight)
        || (acts[n].KeepRecord? && acts[q] == ReadEpoch(acts[n].flight)))
  }

  lemma PutsIff(run: seq<World>, acts: seq<Action>, n: nat, k: ClientID, id: InodeID) returns (q: nat, e: Entry)
    requires IsRun(run, acts) && n < |acts| && Initial(run[0]) && Arrives(run[n], acts[n], k, id)
    ensures CountsFrom(run, acts, q, n, k, id)
    ensures if Undropped(run, acts, q, n, k, InoObj(id)) then Puts(run[n], acts[n], k, id, e) else forall x :: !Puts(run[n], acts[n], k, id, x)
  {
    hide Step, Initial, Undropped;
    if acts[n].KeepInode? {
      q := AskedAt(run, acts, n, acts[n].flight);
      e := Filled(run[n], run[n].gets[acts[n].flight].answer.value);
    } else {
      q := TimedAt(run, acts, n, acts[n].flight);
      e := Filled(run[n], run[n].lookups[acts[n].flight].phase.rec);
    }
    EpochsBetween(run, acts, q, n, k, InoObj(id));
  }

  lemma ShowsNext(run: seq<World>, acts: seq<Action>, n: nat, k: ClientID, id: InodeID, s: nat, r: nat)
    requires IsRun(run, acts) && n < |acts| && Shows(run, acts, n, k, id, s, r) && (acts[n].KeepInode? || acts[n].KeepRecord?)
    requires forall x :: !Puts(run[n], acts[n], k, id, x)
    ensures Shows(run, acts, n + 1, k, id, s, r)
  {
    hide Step, Puts, InodeCoherence.Holds;
    assert Step(run[n], acts[n], run[n + 1]);
    NotDropping(run[n], acts[n], k, InoObj(id));
    StaysCached(run[n], acts[n], run[n + 1], k, id);
    CacheOfStep(run[n], acts[n], run[n + 1], k, id);
    PutsOf(run[n], acts[n], k, id, ClientOf(run[n + 1], k).cache[InoObj(id)]);
  }

  /**
   What a response does to what the client holds of the inode, over every run. If the client has not dropped the inode since
   `q` it holds the record that was read at the authority at `r'`, for this request; otherwise what it held, read at `r`.
   So it goes back in time exactly if it has not dropped the inode since `q` and `r'` is before `r`: when a response
   that was read earlier arrives later. Neither is looked at, although the lease carries a version.
   */
  lemma KeepGoesBackIff(run: seq<World>, acts: seq<Action>, n: nat, k: ClientID, id: InodeID, s: nat, r: nat) returns (q: nat, r': nat)
    requires IsRun(run, acts) && n < |acts| && Initial(run[0]) && Arrives(run[n], acts[n], k, id) && Shows(run, acts, n, k, id, s, r)
    ensures CountsFrom(run, acts, q, n, k, id)
    ensures if Undropped(run, acts, q, n, k, InoObj(id)) then Shows(run, acts, n + 1, k, id, n, r') else Shows(run, acts, n + 1, k, id, s, r)
  {
    hide Step, Initial, Undropped, Puts;
    var e;
    q, e := PutsIff(run, acts, n, k, id);
    r' := 0;
    if Undropped(run, acts, q, n, k, InoObj(id)) {
      r' := PutRead(run, acts, n, k, id, e);
      assert Step(run[n], acts[n], run[n + 1]);
      PutsStored(run[n], acts[n], run[n + 1], k, id, e);
    } else {
      ShowsNext(run, acts, n, k, id, s, r);
    }
  }

  /**
   Between two steps what a client holds of an inode goes back in time, to a reading `r'` before the reading `r` it held,
   only by a response that it stored in between and that was read before the one it held. If that is a GetInode's, the
   client had asked for it before that reading, and has not dropped the inode from then until it stored it.
   */
  lemma GoesBackOnlyIf(run: seq<World>, acts: seq<Action>, n: nat, s: nat, r: nat, n': nat, s': nat, r': nat, k: ClientID, id: InodeID)
    returns (q: nat)
    requires IsRun(run, acts) && n <= n' < |run| && Initial(run[0])
    requires Shows(run, acts, n, k, id, s, r) && Shows(run, acts, n', k, id, s', r') && s != s' && r' < r
    ensures n <= s' < n'
    ensures acts[s'].KeepInode? ==>
              q < r' && acts[q] == AskInode(k, id) && run[q].issued == acts[s'].flight && Undropped(run, acts, q, s', k, InoObj(id))
  {
    hide Step, Initial, InodeCoherence.Holds;
    var e, e' := ClientOf(run[n], k).cache[InoObj(id)], ClientOf(run[n'], k).cache[InoObj(id)];
    assert Puts(run[s], acts[s], k, id, e) && Puts(run[s'], acts[s'], k, id, e');
    q := 0;
    if acts[s'].KeepInode? {
      q := AskedAt(run, acts, s', acts[s'].flight);
      EpochsBetween(run, acts, q, s', k, InoObj(id));
      ReadAfterAsked(run, acts, q, r', acts[s'].flight);
    }
  }

  /** A request is read at the authority only after it was asked. */
  lemma ReadAfterAsked(run: seq<World>, acts: seq<Action>, q: nat, r: nat, f: nat)
    requires IsRun(run, acts) && q < |acts| && r < |acts| && Initial(run[0]) && run[q].issued == f && acts[q].AskInode? && acts[r] == ReadInode(f)
    ensures q < r
  {
    hide Initial;
    assert Step(run[r], acts[r], run[r + 1]);
    var q' := AskedAt(run, acts, r, f);
    assert Step(run[q'], acts[q'], run[q' + 1]);
    if r <= q {
      IssuedGrows(run, acts, q' + 1, q);
    }
  }

  /** So a client that asks for an inode only once it has stored what it asked for before never goes back by a GetInode. */
  lemma AskedLaterIsNewer(run: seq<World>, acts: seq<Action>, n: nat, s: nat, r: nat, n': nat, s': nat, r': nat, q: nat, k: ClientID, id: InodeID)
    requires IsRun(run, acts) && n <= n' < |run| && Initial(run[0])
    requires Shows(run, acts, n, k, id, s, r) && Shows(run, acts, n', k, id, s', r') && acts[s'].KeepInode?
    requires q < |acts| && acts[q].AskInode? && run[q].issued == acts[s'].flight && s < q
    ensures r < r'
  {
    hide Initial;
    ReadAfterAsked(run, acts, q, r', acts[s'].flight);
  }

  // --- a run that goes back ---------------------------------------------------------------------------

  /** The inode has been written and nobody was there to tell; the client has the first GetInode under way. */
  function Pair(ttl: Time, before: InodeRecord, after: InodeRecord, subs: set<Sub>, clients: map<ClientID, Client>,
                granted: bool, second: Option<GetFlight>): World {
    World(0, ttl, map[], map[2 := after], Net(subs, map[], map[0 := Job({}, {})], {}), clients, map[],
          map[0 := GetFlight(0, 2, 0, Some(before), granted)] + if second.Some? then map[1 := second.value] else map[], 2, {}, {})
  }

  function Has(rec: InodeRecord, ttl: Time): map<ClientID, Client> {
    map[0 := Store(EMPTY, FILE, rec, Lease(0, ttl), 0, 0)]
  }

  lemma SecondSteps(ttl: Time, before: InodeRecord, after: InodeRecord)
    ensures var g := GetFlight(0, 2, 0, None, false);
            && Step(Fetching(ttl, after, {}, map[0 := Job({}, {})], Some(before), false), AskInode(0, 2),
                    Pair(ttl, before, after, {}, map[], false, Some(g)))
            && Step(Pair(ttl, before, after, {}, map[], false, Some(g)), ReadInode(1),
                    Pair(ttl, before, after, {}, map[], false, Some(g.(answer := Some(after)))))
  {
    assert map[0 := GetFlight(0, 2, 0, Some(before), false)] + map[1 := GetFlight(0, 2, 0, None, false)]
        == map[0 := GetFlight(0, 2, 0, Some(before), false)][1 := GetFlight(0, 2, 0, None, false)];
    assert map[0 := GetFlight(0, 2, 0, Some(before), false)] + map[1 := GetFlight(0, 2, 0, Some(after), false)]
        == (map[0 := GetFlight(0, 2, 0, Some(before), false)] + map[1 := GetFlight(0, 2, 0, None, false)])[1 := GetFlight(0, 2, 0, Some(after), false)];
  }

  lemma SecondKept(ttl: Time, before: InodeRecord, after: InodeRecord)
    ensures var g := GetFlight(0, 2, 0, Some(after), false);
            && Step(Pair(ttl, before, after, {}, map[], false, Some(g)), GrantInode(1, true),
                    Pair(ttl, before, after, {FILE_SUB}, map[], false, Some(g.(granted := true))))
            && Step(Pair(ttl, before, after, {FILE_SUB}, map[], false, Some(g.(granted := true))), KeepInode(1),
                    Pair(ttl, before, after, {FILE_SUB}, Has(after, ttl), false, None))
  {
    var first, g := map[0 := GetFlight(0, 2, 0, Some(before), false)], GetFlight(0, 2, 0, Some(after), false);
    assert (first + map[1 := g])[1 := g.(granted := true)] == first + map[1 := g.(granted := true)];
    assert (first + map[1 := g.(granted := true)]) - {1} == first + map[];
  }

  lemma FirstKept(ttl: Time, before: InodeRecord, after: InodeRecord)
    ensures Step(Pair(ttl, before, after, {FILE_SUB}, Has(after, ttl), false, None), GrantInode(0, true),
                 Pair(ttl, before, after, {FILE_SUB}, Has(after, ttl), true, None))
  {
    assert {FILE_SUB} + {FILE_SUB} == {FILE_SUB};
    var first := map[0 := GetFlight(0, 2, 0, Some(before), false)];
    assert (first + map[])[0 := GetFlight(0, 2, 0, Some(before), true)] == map[0 := GetFlight(0, 2, 0, Some(before), true)] + map[];
  }

  /** The cache has one place for the inode, and the last response gets it. */
  lemma StoredOver(ttl: Time, rec: InodeRecord, rec': InodeRecord)
    ensures Store(Store(EMPTY, FILE, rec, Lease(0, ttl), 0, 0), FILE, rec', Lease(0, ttl), 0, 0) == Store(EMPTY, FILE, rec', Lease(0, ttl), 0, 0)
  {
  }

  lemma FirstStored(ttl: Time, before: InodeRecord, after: InodeRecord)
    ensures Step(Pair(ttl, before, after, {FILE_SUB}, Has(after, ttl), true, None), KeepInode(0),
                 Pair(ttl, before, after, {FILE_SUB}, Has(before, ttl), true, None).(gets := map[]))
  {
    hide Store;
    StoredOver(ttl, after, before);
    assert (map[0 := GetFlight(0, 2, 0, Some(before), true)] + map[]) - {0} == map[];
    assert Has(after, ttl)[0 := Store(EMPTY, FILE, before, Lease(0, ttl), 0, 0)] == Has(before, ttl);
  }

  /** The first request is read, and then the inode is written. */
  lemma ReadThenWritten(ttl: Time, before: InodeRecord, after: InodeRecord) returns (acts: seq<Action>)
    ensures Reached(Fresh(ttl, map[], map[2 := before]), acts, Fetching(ttl, after, {}, map[0 := Job({}, {})], Some(before), false))
    ensures forall a :: a in acts ==> !a.Deliver? && !a.DropOwn?
  {
    hide Step, Reached;
    var start := Fresh(ttl, map[], map[2 := before]);
    ReachStart(start);
    InodeCoherence.FetchSteps(ttl, before, start);
    var read := Fetching(ttl, before, {}, map[], Some(before), false);
    acts := ReachTwo(start, [], start, AskInode(0, 2), Fetching(ttl, before, {}, map[], None, false), ReadInode(0), read);
    WindowSteps(ttl, before, after);
    acts := ReachTwo(start, acts, read, Mutate(0, {FILE}, map[], map[2 := after]),
                     Fetching(ttl, after, {}, map[0 := Job({FILE}, {})], Some(before), false), Collect(0, FILE),
                     Fetching(ttl, after, {}, map[0 := Job({}, {})], Some(before), false));
  }

  /** The second is asked, read and stored. */
  lemma SecondStored(ttl: Time, before: InodeRecord, after: InodeRecord) returns (acts: seq<Action>)
    ensures Reached(Fresh(ttl, map[], map[2 := before]), acts, Pair(ttl, before, after, {FILE_SUB}, Has(after, ttl), false, None))
    ensures forall a :: a in acts ==> !a.Deliver? && !a.DropOwn?
  {
    hide Step, Reached, Pair, Fetching;
    var start := Fresh(ttl, map[], map[2 := before]);
    acts := ReadThenWritten(ttl, before, after);
    var told := Fetching(ttl, after, {}, map[0 := Job({}, {})], Some(before), false);
    SecondSteps(ttl, before, after);
    SecondKept(ttl, before, after);
    var g := GetFlight(0, 2, 0, None, false);
    var answered := Pair(ttl, before, after, {}, map[], false, Some(g.(answer := Some(after))));
    acts := ReachTwo(start, acts, told, AskInode(0, 2), Pair(ttl, before, after, {}, map[], false, Some(g)), ReadInode(1), answered);
    acts := ReachTwo(start, acts, answered, GrantInode(1, true),
                     Pair(ttl, before, after, {FILE_SUB}, map[], false, Some(g.(answer := Some(after), granted := true))), KeepInode(1),
                     Pair(ttl, before, after, {FILE_SUB}, Has(after, ttl), false, None));
  }

  /**
   Two GetInodes of one client overlap, with a write in between. It answers the new record, and then, without having
   dropped anything and with no push lost, the old one, with nothing on its way.
   */
  lemma GoesBack(ttl: Time, before: InodeRecord, after: InodeRecord) returns (start: World, acts: seq<Action>, w: World, more: seq<Action>, w': World)
    requires ttl > 0 && before != after
    ensures Initial(start) && Reached(start, acts, w) && Reached(start, acts + more, w') && w'.net.lost == {}
    ensures CachedInode(ClientOf(w, 0), 2, w.now) == Some(after) && CachedInode(ClientOf(w', 0), 2, w'.now) == Some(before)
    ensures w.inode == w'.inode == map[2 := after] && !InSync(w', 0, 2, before)
    ensures forall a :: a in acts + more ==> !a.Deliver? && !a.DropOwn?
  {
    hide Step, Reached;
    start := Fresh(ttl, map[], map[2 := before]);
    acts := SecondStored(ttl, before, after);
    w := Pair(ttl, before, after, {FILE_SUB}, Has(after, ttl), false, None);
    FirstKept(ttl, before, after);
    FirstStored(ttl, before, after);
    w' := Pair(ttl, before, after, {FILE_SUB}, Has(before, ttl), true, None).(gets := map[]);
    more := [GrantInode(0, true), KeepInode(0)];
    var all := ReachTwo(start, acts, w, GrantInode(0, true), Pair(ttl, before, after, {FILE_SUB}, Has(after, ttl), true, None), KeepInode(0), w');
    assert all == acts + more;
  }
}
