/** Live bytes per container, and the bound compaction gives on what is stored. */
module Space {
  import opened Base
  import opened Storage

  type Locators = map<ChunkID, Locator>

  ghost function SumLen(m: Locators): nat
    decreases |m|
  {
    if m == map[] then 0 else
      var c :| c in m;
      m[c].length + SumLen(m - {c})
  }

  lemma {:induction false} SumLenRemove(m: Locators, c: ChunkID)
    requires c in m
    ensures SumLen(m) == m[c].length + SumLen(m - {c})
    decreases |m|
  {
    var x :| x in m && SumLen(m) == m[x].length + SumLen(m - {x});
    if x != c {
      SumLenRemove(m - {x}, c);
      SumLenRemove(m - {c}, x);
      assert m - {x} - {c} == m - {c} - {x};
    }
  }

  lemma SumLenAdd(m: Locators, c: ChunkID, loc: Locator)
    requires c !in m
    ensures SumLen(m[c := loc]) == SumLen(m) + loc.length
  {
    SumLenRemove(m[c := loc], c);
    assert m[c := loc] - {c} == m;
  }

  /** The same chunks at the same lengths. */
  lemma {:induction false} SumLenAgrees(m: Locators, m': Locators)
    requires m.Keys == m'.Keys && forall c :: c in m ==> m[c].length == m'[c].length
    ensures SumLen(m) == SumLen(m')
    decreases |m|
  {
    if m == map[] {
      assert m' == map[];
    } else {
      var c :| c in m;
      SumLenRemove(m, c);
      SumLenRemove(m', c);
      SumLenAgrees(m - {c}, m' - {c});
    }
  }

  /** `m` is the disjoint union of `a` and `b`. */
  ghost predicate Joins(m: Locators, a: Locators, b: Locators) {
    && m.Keys == a.Keys + b.Keys && a.Keys !! b.Keys
    && (forall c :: c in a ==> m[c] == a[c]) && (forall c :: c in b ==> m[c] == b[c])
  }

  lemma JoinsWithout(m: Locators, a: Locators, b: Locators, c: ChunkID)
    requires Joins(m, a, b) && c in b
    ensures Joins(m - {c}, a, b - {c})
  {
    assert c in b.Keys && c !in a.Keys;
  }

  lemma {:induction false} SumLenJoin(m: Locators, a: Locators, b: Locators)
    requires Joins(m, a, b)
    ensures SumLen(m) == SumLen(a) + SumLen(b)
    decreases |b|
  {
    if b == map[] {
      assert m == a;
    } else {
      var c :| c in b;
      SumLenRemove(b, c);
      SumLenRemove(m, c);
      JoinsWithout(m, a, b, c);
      SumLenJoin(m - {c}, a, b - {c});
    }
  }

  /** The locators into one container. */
  ghost function In(m: Locators, k: Key): Locators {
    map c | c in m && m[c].container == k :: m[c]
  }

  ghost function LiveBytes(m: Locators, k: Key): nat {
    SumLen(In(m, k))
  }

  /** The live fraction of a container is at least num / den. */
  ghost predicate Dense(st: Store, k: Key, num: nat, den: nat)
    requires k in st.objects
  {
    num * |st.objects[k]| <= den * LiveBytes(st.locators, k)
  }

  ghost function TotalSize(objects: map<Key, Bytes>, ks: set<Key>): nat
    requires ks <= objects.Keys
    decreases ks
  {
    if ks == {} then 0 else
      var k :| k in ks;
      |objects[k]| + TotalSize(objects, ks - {k})
  }

  ghost function InAny(m: Locators, ks: set<Key>): Locators {
    map c | c in m && m[c].container in ks :: m[c]
  }

  lemma {:induction false} DenseTotal(st: Store, ks: set<Key>, num: nat, den: nat)
    requires ks <= st.objects.Keys && forall k :: k in ks ==> Dense(st, k, num, den)
    ensures num * TotalSize(st.objects, ks) <= den * SumLen(InAny(st.locators, ks))
    decreases ks
  {
    if ks != {} {
      var k :| k in ks && TotalSize(st.objects, ks) == |st.objects[k]| + TotalSize(st.objects, ks - {k});
      DenseTotal(st, ks - {k}, num, den);
      var rest := InAny(st.locators, ks - {k});
      assert Joins(InAny(st.locators, ks), rest, In(st.locators, k));
      SumLenJoin(InAny(st.locators, ks), rest, In(st.locators, k));
      assert Dense(st, k, num, den);
      AddScaled(num, |st.objects[k]|, TotalSize(st.objects, ks - {k}), TotalSize(st.objects, ks),
                den, LiveBytes(st.locators, k), SumLen(rest), SumLen(InAny(st.locators, ks)));
    }
  }

  lemma AddScaled(num: nat, a: nat, b: nat, ab: nat, den: nat, x: nat, y: nat, xy: nat)
    requires num * a <= den * x && num * b <= den * y && ab == a + b && xy == x + y
    ensures num * ab <= den * xy
  {
    assert num * (a + b) == num * a + num * b;
    assert den * (x + y) == den * x + den * y;
  }

  lemma PartIsLess(m: Locators, ks: set<Key>)
    ensures SumLen(InAny(m, ks)) <= SumLen(m)
  {
    var outside := map c | c in m && m[c].container !in ks :: m[c];
    assert Joins(m, InAny(m, ks), outside);
    SumLenJoin(m, InAny(m, ks), outside);
  }

  lemma ScaledMore(t: int, den: nat, x: nat, y: nat)
    requires t <= den * x && x <= y
    ensures t <= den * y
  {
    assert den * y == den * x + den * (y - x);
  }

  /** When every container that is not retired is dense, what is stored is bounded by what is located. */
  lemma SpaceBound(st: Store, num: nat, den: nat)
    requires forall k :: k in st.objects && k !in st.dead ==> Dense(st, k, num, den)
    ensures num * TotalSize(st.objects, st.objects.Keys - st.dead.Keys) <= den * SumLen(st.locators)
  {
    var ks := st.objects.Keys - st.dead.Keys;
    DenseTotal(st, ks, num, den);
    PartIsLess(st.locators, ks);
    ScaledMore(num * TotalSize(st.objects, ks), den, SumLen(InAny(st.locators, ks)), SumLen(st.locators));
  }

  /**
   A container was rewritten: nothing points at it, other containers kept their locators, and there is one new container,
   full of what was located in it, or none if nothing was.
   */
  ghost predicate Rewritten(st: Store, st': Store, k: Key) {
    && st'.locators.Keys == st.locators.Keys && st'.dead == st.dead && st.nextKey <= st'.nextKey <= st.nextKey + 1
    && (forall c :: c in st'.locators ==> st'.locators[c].container != k)
    && (forall j: Key :: j != k && j < st.nextKey ==> In(st'.locators, j) == In(st.locators, j))
    && (forall j :: j in st.objects ==> j in st'.objects && st'.objects[j] == st.objects[j])
    && (forall j :: j in st'.objects && j !in st.objects ==> j >= st.nextKey && |st'.objects[j]| == LiveBytes(st'.locators, j))
    && (forall j :: j in st'.objects && j !in st.objects ==> In(st'.locators, j) != map[])
  }

  /** The locators of `moved` repointed at one fresh container of exactly their total length. */
  lemma MovedIsRewritten(st: Store, st': Store, k: Key, moved: Locators, data: Bytes)
    requires k < st.nextKey && moved.Keys == In(st.locators, k).Keys && moved != map[]
    requires st'.locators == st.locators + moved && st'.objects == st.objects[st.nextKey := data]
    requires st'.dead == st.dead && st'.nextKey == st.nextKey + 1
    requires forall c :: c in st.locators ==> st.locators[c].container < st.nextKey
    requires forall j :: j in st.objects ==> j < st.nextKey
    requires forall c :: c in moved ==> moved[c].container == st.nextKey && moved[c].length == st.locators[c].length
    requires |data| == LiveBytes(st.locators, k)
    ensures Rewritten(st, st', k)
  {
    assert forall c :: c in moved ==> c in In(st.locators, k).Keys;
    forall c | c in st'.locators ensures st'.locators[c].container != k {
      if c !in moved {
        assert c !in In(st.locators, k).Keys;
      }
    }
    forall j: Key | j != k && j < st.nextKey ensures In(st'.locators, j) == In(st.locators, j) {
    }
    assert In(st'.locators, st.nextKey) == moved;
    SumLenAgrees(moved, In(st.locators, k));
  }

  // --- Compact's tally ------------------------------------------------------------------

  datatype Tally = Tally(entries: set<ChunkID>, liveBytes: nat)

  ghost predicate Tallied(m: Locators, tally: map<Key, Tally>) {
    && (forall k :: k in tally ==> tally[k] == Tally(In(m, k).Keys, LiveBytes(m, k)))
    && (forall c :: c in m ==> m[c].container in tally)
  }

  /** One more locator changes its own container's tally and no other. */
  lemma InAdd(m: Locators, c: ChunkID, loc: Locator, k: Key)
    requires c !in m
    ensures In(m[c := loc], k) == if k == loc.container then In(m, k)[c := loc] else In(m, k)
    ensures LiveBytes(m[c := loc], k) == LiveBytes(m, k) + if k == loc.container then loc.length else 0
  {
    assert In(m[c := loc], k) == if k == loc.container then In(m, k)[c := loc] else In(m, k);
    if k == loc.container {
      SumLenAdd(In(m, k), c, loc);
    }
  }

  /** The tally with one more locator. */
  function Count(tally: map<Key, Tally>, c: ChunkID, loc: Locator): map<Key, Tally> {
    var t := if loc.container in tally then tally[loc.container] else Tally({}, 0);
    tally[loc.container := Tally(t.entries + {c}, t.liveBytes + loc.length)]
  }

  lemma TallyNextAt(m: Locators, tally: map<Key, Tally>, c: ChunkID, loc: Locator, k: Key)
    requires Tallied(m, tally) && c !in m && k in Count(tally, c, loc)
    ensures Count(tally, c, loc)[k] == Tally(In(m[c := loc], k).Keys, LiveBytes(m[c := loc], k))
  {
    InAdd(m, c, loc, k);
    if k !in tally {
      assert In(m, k) == map[];
    }
    if k == loc.container {
      assert In(m[c := loc], k).Keys == In(m, k).Keys + {c};
    }
  }

  lemma TallyNext(m: Locators, tally: map<Key, Tally>, c: ChunkID, loc: Locator)
    requires Tallied(m, tally) && c !in m
    ensures Tallied(m[c := loc], Count(tally, c, loc))
  {
    forall k | k in Count(tally, c, loc)
      ensures Count(tally, c, loc)[k] == Tally(In(m[c := loc], k).Keys, LiveBytes(m[c := loc], k))
    {
      TallyNextAt(m, tally, c, loc, k);
    }
  }

  lemma MinusNext(m: Locators, todo: set<ChunkID>, c: ChunkID)
    requires c in todo && todo <= m.Keys
    ensures (m - todo)[c := m[c]] == m - (todo - {c}) && c !in m - todo
  {
  }

  method TallyContainers(locs: Locators) returns (tally: map<Key, Tally>)
    ensures Tallied(locs, tally)
  {
    tally := map[];
    var todo := locs.Keys;
    assert locs - todo == map[];
    while todo != {}
      invariant todo <= locs.Keys && Tallied(locs - todo, tally)
      decreases |todo|
    {
      var c :| c in todo;
      TallyNext(locs - todo, tally, c, locs[c]);
      MinusNext(locs, todo, c);
      tally := Count(tally, c, locs[c]);
      todo := todo - {c};
    }
    assert locs - {} == locs;
  }

  // --- the progress of a compaction -------------------------------------------------------

  /** A container compaction is done with: retired, or dense enough. */
  ghost predicate Settled(st: Store, k: Key, num: nat, den: nat) {
    k in st.objects && k !in st.dead && num <= den ==> Dense(st, k, num, den)
  }

  /** From `st0` on, the containers of `todo` are as they were and all others are settled. */
  ghost predicate Compacting(st0: Store, st: Store, todo: set<Key>, num: nat, den: nat) {
    && todo <= st0.objects.Keys && KeysDrawn(st) && st.locators.Keys == st0.locators.Keys
    && (forall k :: k in st0.objects ==> k in st.objects && st.objects[k] == st0.objects[k])
    && (forall k :: k in st0.dead ==> k in st.dead && st.dead[k] == st0.dead[k])
    && (forall k :: k in todo ==> In(st.locators, k) == In(st0.locators, k) && (k in st.dead <==> k in st0.dead))
    && (forall k :: k !in todo ==> Settled(st, k, num, den))
  }

  lemma CompactingStarts(st: Store, num: nat, den: nat)
    requires KeysDrawn(st)
    ensures Compacting(st, st, st.objects.Keys, num, den)
  {
  }

  /** A container still to come is as it was. */
  lemma CompactingAt(st0: Store, st: Store, todo: set<Key>, num: nat, den: nat, k: Key)
    requires Compacting(st0, st, todo, num, den) && k in todo
    ensures k in st0.objects && k in st.objects && st.objects[k] == st0.objects[k]
    ensures In(st.locators, k) == In(st0.locators, k) && (k in st.dead <==> k in st0.dead)
  {
  }

  ghost predicate AllSettled(st: Store, num: nat, den: nat) {
    forall k: Key :: Settled(st, k, num, den)
  }

  lemma CompactingEnds(st0: Store, st: Store, num: nat, den: nat)
    requires Compacting(st0, st, {}, num, den)
    ensures AllSettled(st, num, den)
  {
  }

  /** The test Compact makes of a listed container, the threshold being num / den. */
  predicate DenseEnough(live: nat, size: nat, num: nat, den: nat) {
    size == 0 || live * den >= num * size
  }

  lemma DenseEnoughIs(live: nat, size: nat, num: nat, den: nat)
    requires DenseEnough(live, size, num, den)
    ensures num * size <= den * live
  {
    assert live * den == den * live;
  }

  lemma SkippedSettles(st0: Store, st: Store, todo: set<Key>, num: nat, den: nat, k: Key)
    requires Compacting(st0, st, todo, num, den) && k in todo
    requires k in st0.dead || DenseEnough(LiveBytes(st0.locators, k), |st0.objects[k]|, num, den)
    ensures Compacting(st0, st, todo - {k}, num, den)
  {
    if k !in st0.dead {
      DenseEnoughIs(LiveBytes(st0.locators, k), |st0.objects[k]|, num, den);
    }
  }

  lemma ScaledLess(num: nat, den: nat, x: nat)
    requires num <= den
    ensures num * x <= den * x
  {
  }

  /** Rewriting a container and retiring it leaves every other one settled that was. */
  lemma RewrittenSettles(st: Store, st': Store, k: Key, at: Time, num: nat, den: nat, j: Key)
    requires Rewritten(st, st', k) && KeysDrawn(st) && j != k
    requires j in st.objects ==> Settled(st, j, num, den)
    ensures Settled(st'.(dead := st'.dead[k := at]), j, num, den)
  {
    if j in st'.objects && j !in st'.dead && num <= den {
      if j !in st.objects {
        ScaledLess(num, den, |st'.objects[j]|);
      } else {
        assert In(st'.locators, j) == In(st.locators, j);
      }
    }
  }

  lemma RewrittenAdvances(st0: Store, st: Store, st': Store, todo: set<Key>, k: Key, at: Time, num: nat, den: nat)
    requires Compacting(st0, st, todo, num, den) && k in todo && k !in st.dead && Rewritten(st, st', k) && KeysDrawn(st')
    ensures Compacting(st0, st'.(dead := st'.dead[k := at]), todo - {k}, num, den)
  {
    forall j: Key | j !in todo - {k} ensures Settled(st'.(dead := st'.dead[k := at]), j, num, den) {
      if j != k {
        RewrittenSettles(st, st', k, at, num, den, j);
      }
    }
  }

  // --- which containers a compaction retires -------------------------------------------------

  /** Listed, not retired, and with less than num / den of its bytes located. */
  ghost predicate Wasteful(st: Store, k: Key, num: nat, den: nat) {
    k in st.objects && k !in st.dead && num * |st.objects[k]| > den * LiveBytes(st.locators, k)
  }

  /**
   From `st0` on, exactly the wasteful containers outside `todo` were retired, all as of `at`. Their chunks moved to new
   containers, every other locator is as it was, no container is gone or changed, and none was written in which nothing is
   located.
   */
  ghost predicate Retiring(st0: Store, st: Store, todo: set<Key>, num: nat, den: nat, at: Time) {
    && (forall k :: k in st.dead <==> k in st0.dead || (k !in todo && Wasteful(st0, k, num, den)))
    && (forall k :: k in st.dead ==> st.dead[k] == if k in st0.dead then st0.dead[k] else at)
    && st.locators.Keys == st0.locators.Keys && st0.nextKey <= st.nextKey
    && (forall c :: c in st.locators ==>
                      if st0.locators[c].container !in todo && Wasteful(st0, st0.locators[c].container, num, den)
                      then st.locators[c].container >= st0.nextKey else st.locators[c] == st0.locators[c])
    && (forall j :: j in st0.objects ==> j in st.objects && st.objects[j] == st0.objects[j])
    && (forall j :: j in st.objects && j !in st0.objects ==> In(st.locators, j) != map[])
  }

  lemma RetiringStarts(st: Store, todo: set<Key>, num: nat, den: nat, at: Time)
    requires todo == st.objects.Keys
    ensures Retiring(st, st, todo, num, den, at)
  {
  }

  lemma RetiringSkips(st0: Store, st: Store, todo: set<Key>, num: nat, den: nat, at: Time, k: Key)
    requires Retiring(st0, st, todo, num, den, at) && !Wasteful(st0, k, num, den)
    ensures Retiring(st0, st, todo - {k}, num, den, at)
  {
  }

  /** What the test says of a listed container. */
  lemma DenseEnoughIff(st: Store, k: Key, num: nat, den: nat)
    requires k in st.objects && k !in st.dead
    ensures DenseEnough(LiveBytes(st.locators, k), |st.objects[k]|, num, den) <==> !Wasteful(st, k, num, den)
  {
    assert LiveBytes(st.locators, k) * den == den * LiveBytes(st.locators, k);
  }

  lemma RewrittenLocator(st: Store, st': Store, k: Key, c: ChunkID)
    requires Rewritten(st, st', k) && c in st.locators && st.locators[c].container < st.nextKey
    ensures if st.locators[c].container == k then st'.locators[c].container >= st.nextKey else st'.locators[c] == st.locators[c]
  {
    var j := st.locators[c].container;
    if j != k {
      assert c in In(st.locators, j);
      assert c in In(st'.locators, j);
      assert In(st'.locators, j)[c] == In(st.locators, j)[c];
    } else {
      var j' := st'.locators[c].container;
      if j' < st.nextKey {
        assert c in In(st'.locators, j');
      }
    }
  }

  /** The dead list after one more retirement. */
  lemma RetiringDead(st0: Store, st: Store, dead': map<Key, Time>, todo: set<Key>, num: nat, den: nat, at: Time, k: Key)
    requires Retiring(st0, st, todo, num, den, at) && k in todo && Wasteful(st0, k, num, den) && dead' == st.dead[k := at]
    ensures forall x :: x in dead' <==> x in st0.dead || (x !in todo - {k} && Wasteful(st0, x, num, den))
    ensures forall x :: x in dead' ==> dead'[x] == if x in st0.dead then st0.dead[x] else at
  {
  }

  lemma RetiringMoved(st0: Store, st: Store, st': Store, todo: set<Key>, num: nat, den: nat, at: Time, k: Key, c: ChunkID)
    requires Retiring(st0, st, todo, num, den, at) && k in todo && Wasteful(st0, k, num, den) && k < st0.nextKey
    requires Rewritten(st, st', k) && c in st.locators && st.locators[c].container < st.nextKey
    ensures if st0.locators[c].container !in todo - {k} && Wasteful(st0, st0.locators[c].container, num, den)
            then st'.locators[c].container >= st0.nextKey else st'.locators[c] == st0.locators[c]
  {
    hide Rewritten, Wasteful, In;
    RewrittenLocator(st, st', k, c);
  }

  lemma RetiringNew(st0: Store, st: Store, st': Store, todo: set<Key>, num: nat, den: nat, at: Time, k: Key, j: Key)
    requires Retiring(st0, st, todo, num, den, at) && k in st0.objects && Rewritten(st, st', k) && KeysDrawn(st)
    requires j in st'.objects && j !in st0.objects
    ensures In(st'.locators, j) != map[]
  {
    if j in st.objects {
      assert In(st'.locators, j) == In(st.locators, j);
    }
  }

  lemma RewrittenKeys(st: Store, st': Store, k: Key)
    requires Rewritten(st, st', k)
    ensures st'.locators.Keys == st.locators.Keys && st.nextKey <= st'.nextKey && st'.dead == st.dead
    ensures forall j :: j in st.objects ==> j in st'.objects && st'.objects[j] == st.objects[j]
  {
  }

  lemma RetiringNext(st0: Store, st: Store, st': Store, todo: set<Key>, num: nat, den: nat, at: Time, k: Key)
    requires Retiring(st0, st, todo, num, den, at) && k in todo && Wasteful(st0, k, num, den) && k < st0.nextKey
    requires Rewritten(st, st', k) && KeysDrawn(st) && forall c :: c in st.locators ==> st.locators[c].container < st.nextKey
    ensures Retiring(st0, st'.(dead := st'.dead[k := at]), todo - {k}, num, den, at)
  {
    hide Rewritten, In;
    RewrittenKeys(st, st', k);
    RetiringDead(st0, st, st'.dead[k := at], todo, num, den, at, k);
    forall c | c in st'.locators
      ensures if st0.locators[c].container !in todo - {k} && Wasteful(st0, st0.locators[c].container, num, den)
              then st'.locators[c].container >= st0.nextKey else st'.locators[c] == st0.locators[c]
    {
      RetiringMoved(st0, st, st', todo, num, den, at, k, c);
    }
    forall j | j in st'.objects && j !in st0.objects ensures In(st'.locators, j) != map[] {
      RetiringNew(st0, st, st', todo, num, den, at, k, j);
    }
  }

  /** The bound a finished compaction gives: at one half, no more than twice what is located is stored. */
  lemma SettledBound(st: Store, num: nat, den: nat)
    requires AllSettled(st, num, den) && num <= den
    ensures num * TotalSize(st.objects, st.objects.Keys - st.dead.Keys) <= den * SumLen(st.locators)
  {
    forall k | k in st.objects && k !in st.dead ensures Dense(st, k, num, den) {
      assert Settled(st, k, num, den);
    }
    SpaceBound(st, num, den);
  }
}
