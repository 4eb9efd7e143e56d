/**
 Readers that hold an old locator. A reader may look a chunk up, be overtaken by any run of commits, sweeps and
 compactions, and only then read: this is how long the container it was told about stays readable.
 */
module Grace {
  import opened Base
  import opened Storage
  import opened Garbage
  import ContentPath

  const SECOND := 1_000_000_000
  const T_WRITE_MAX := 3600 * SECOND
  const D_MAX := 30 * SECOND
  const EPSILON := SECOND / 2
  /** Invariant GC-1's bound: Sweep refuses a grace period that does not exceed it. */
  const MIN_GRACE := T_WRITE_MAX + D_MAX + EPSILON

  datatype Moment = Moment(st: Store, now: Time)

  ghost predicate DeadUnreferenced(st: Store) {
    forall c :: c in st.locators ==> st.locators[c].container !in st.dead
  }

  /**
   One step of the system as a stale reader sees it: containers keep their bytes; one goes only after it was
   retired for the grace period; a retirement is recorded once, with a time not before `since`, and dropped only
   when the object is gone; and no locator points at a retired container.
   */
  ghost predicate Step(m: Moment, m': Moment, grace: Time, since: Time) {
    && m.now <= m'.now && DeadUnreferenced(m'.st)
    && (forall k :: k in m.st.objects ==>
                      if k in m'.st.objects then m'.st.objects[k] == m.st.objects[k]
                      else k in m.st.dead && m.st.dead[k] <= m'.now - grace)
    && (forall k :: k in m.st.dead ==>
                      if k in m'.st.dead then m'.st.dead[k] == m.st.dead[k] else k !in m'.st.objects)
    && (forall k :: k in m'.st.dead && k !in m.st.dead ==> m'.st.dead[k] >= since)
  }

  /** A run in which a compaction records a retirement at most `slack` after it read the clock. */
  ghost predicate Run(run: seq<Moment>, grace: Time, slack: Time) {
    forall i :: 0 <= i < |run| - 1 ==> Step(run[i], run[i + 1], grace, run[i + 1].now - slack)
  }

  /** Still there, and if retired then not before the reader was told. */
  ghost predicate Holds(st: Store, k: Key, data: Bytes, told: Time) {
    k in st.objects && st.objects[k] == data && (k in st.dead ==> st.dead[k] >= told)
  }

  lemma {:induction false} HeldContainer(run: seq<Moment>, i: nat, j: nat, k: Key, grace: Time, slack: Time)
    requires i <= j < |run| && Run(run, grace, slack) && slack >= 0
    requires k in run[i].st.objects && k !in run[i].st.dead
    requires run[j].now < run[i].now + grace - slack
    ensures Holds(run[j].st, k, run[i].st.objects[k], run[i].now - slack)
    ensures run[i].now <= run[j].now
    decreases j - i
  {
    if i < j {
      assert Step(run[j - 1], run[j], grace, run[j].now - slack);
      HeldContainer(run, i, j - 1, k, grace, slack);
    }
  }

  /**
   A locator that was current at one moment resolves to the same bytes at every later moment less than the grace
   period minus the compaction slack away.
   */
  lemma StaleReaderProtected(sum: Bytes -> Digest, run: seq<Moment>, i: nat, j: nat, c: ChunkID, grace: Time, slack: Time)
    requires i <= j < |run| && Run(run, grace, slack) && slack >= 0 && DeadUnreferenced(run[i].st)
    requires c in run[i].st.locators && ReadChunk(sum, run[i].st, c).Some?
    requires run[j].now < run[i].now + grace - slack
    ensures Fetch(sum, run[j].st.objects, c, run[i].st.locators[c]) == ReadChunk(sum, run[i].st, c)
  {
    HeldContainer(run, i, j, run[i].st.locators[c].container, grace, slack);
  }

  /** With the grace period Sweep insists on, that covers MIN_GRACE if retirements are written less late than grace - MIN_GRACE. */
  lemma StaleReaderMinGrace(sum: Bytes -> Digest, run: seq<Moment>, i: nat, j: nat, c: ChunkID, grace: Time, slack: Time)
    requires i <= j < |run| && Run(run, grace, slack) && DeadUnreferenced(run[i].st)
    requires c in run[i].st.locators && ReadChunk(sum, run[i].st, c).Some?
    requires 0 <= slack < grace - MIN_GRACE && run[j].now <= run[i].now + MIN_GRACE
    ensures Fetch(sum, run[j].st.objects, c, run[i].st.locators[c]) == ReadChunk(sum, run[i].st, c)
  {
    StaleReaderProtected(sum, run, i, j, c, grace, slack);
  }

  /** Storing and committing content is such a step: containers are only added. */
  lemma CommitIsStep(sum: Bytes -> Digest, m: Moment, m': Moment, grace: Time, since: Time)
    requires ContentPath.Kept(m.st, m'.st) && ValidStore(sum, m'.st) && m.now <= m'.now
    ensures Step(m, m', grace, since)
  {
  }

  /** A step stays one when the earliest allowed retirement time is moved back. */
  lemma StepSince(m: Moment, m': Moment, grace: Time, since: Time, earlier: Time)
    requires Step(m, m', grace, since) && earlier <= since
    ensures Step(m, m', grace, earlier)
  {
  }

  /** A commit makes a run of two moments. */
  lemma CommitIsRun(sum: Bytes -> Digest, m: Moment, m': Moment, grace: Time, slack: Time)
    requires ContentPath.Kept(m.st, m'.st) && ValidStore(sum, m'.st) && m.now <= m'.now
    ensures Run([m, m'], grace, slack)
  {
    CommitIsStep(sum, m, m', grace, m'.now - slack);
  }

  /** Runs that meet in a moment join, so commits, sweeps and compactions may follow each other in any number. */
  lemma RunsJoin(a: seq<Moment>, b: seq<Moment>, grace: Time, slack: Time)
    requires a != [] && b != [] && a[|a| - 1] == b[0] && Run(a, grace, slack) && Run(b, grace, slack)
    ensures Run(a + b[1..], grace, slack)
  {
    var run := a + b[1..];
    forall i | 0 <= i < |run| - 1 ensures Step(run[i], run[i + 1], grace, run[i + 1].now - slack) {
      if i < |a| - 1 {
        assert Step(a[i], a[i + 1], grace, a[i + 1].now - slack);
      } else {
        var j := i - (|a| - 1);
        assert run[i] == b[j] && run[i + 1] == b[j + 1];
        assert Step(b[j], b[j + 1], grace, b[j + 1].now - slack);
      }
    }
  }

  /** Runs that meet in a store, with any time in between, follow each other. */
  lemma RunsFollow(a: seq<Moment>, b: seq<Moment>, grace: Time, slack: Time)
    requires a != [] && b != [] && Run(a, grace, slack) && Run(b, grace, slack)
    requires a[|a| - 1].st == b[0].st && a[|a| - 1].now <= b[0].now && DeadUnreferenced(b[0].st)
    ensures Run(a + b, grace, slack)
  {
    var idle := [a[|a| - 1], b[0]];
    RunsJoin(idle, b, grace, slack);
    RunsJoin(a, idle + b[1..], grace, slack);
    assert (idle + b[1..])[1..] == b;
  }

  /** So a commit extends any such run. */
  lemma CommitExtends(sum: Bytes -> Digest, run: seq<Moment>, m: Moment, grace: Time, slack: Time)
    requires run != [] && Run(run, grace, slack) && run[|run| - 1].now <= m.now
    requires ContentPath.Kept(run[|run| - 1].st, m.st) && ValidStore(sum, m.st)
    ensures Run(run + [m], grace, slack)
  {
    var step := [run[|run| - 1], m];
    CommitIsRun(sum, run[|run| - 1], m, grace, slack);
    RunsJoin(run, step, grace, slack);
    assert step[1..] == [m];
  }
}
