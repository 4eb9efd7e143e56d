/**
 Short histories of a fresh store that end where one more call breaks an invariant: each condition of module Histories
 and of DirCounts fails at a state that can be reached.
 */
module Witnesses {
  import opened Base
  import opened Namespace
  import opened TreeShape
  import opened Accounting
  import opened Histories
  import opened DirCounts

  const DIR := InodeRecord(true, 493, 0, 0, 0, 0, 0, 0, 2, NoContent, Plain)
  const FILE := InodeRecord(false, 420, 0, 0, 0, 0, 0, 0, 1, NoContent, Plain)

  /** Some allowed history of a fresh store ends here. */
  ghost predicate Reachable(s: NS) {
    exists ops :: AllAllowed(Fresh(DIR), ops) && AfterAll(Fresh(DIR), ops) == s
  }

  lemma ReachableStart()
    ensures Reachable(Fresh(DIR))
  {
    assert AllAllowed(Fresh(DIR), []) && AfterAll(Fresh(DIR), []) == Fresh(DIR);
  }

  lemma {:induction false} HistoryNext(s: NS, ops: seq<Op>, op: Op)
    requires AllAllowed(s, ops) && Allowed(AfterAll(s, ops), op)
    ensures AllAllowed(s, ops + [op]) && AfterAll(s, ops + [op]) == After(AfterAll(s, ops), op)
    decreases |ops|
  {
    hide Allowed, After;
    if ops == [] {
      assert ([] + [op])[0] == op && ([] + [op])[1..] == [];
    } else {
      assert (ops + [op])[1..] == ops[1..] + [op];
      HistoryNext(After(s, ops[0]), ops[1..], op);
    }
  }

  lemma ReachableNext(s: NS, op: Op, s': NS)
    requires Reachable(s) && Allowed(s, op) && Run(s, op) == Ok(s')
    ensures Reachable(s')
  {
    hide Allowed, Run;
    var ops :| AllAllowed(Fresh(DIR), ops) && AfterAll(Fresh(DIR), ops) == s;
    HistoryNext(Fresh(DIR), ops, op);
  }

  lemma ReachableInv(s: NS)
    requires Reachable(s)
    ensures Inv(s)
  {
    var ops :| AllAllowed(Fresh(DIR), ops) && AfterAll(Fresh(DIR), ops) == s;
    FreshInv(DIR);
    HistoryKeepsInv(Fresh(DIR), ops);
  }

  // --- states ----------------------------------------------------------------------------------

  const A := Slot(ROOT, "a")
  const B := Slot(ROOT, "b")

  /** One file under one name. */
  const NAMED := NS(map[A := 2], map[ROOT := DIR, 2 := FILE], {}, Quota(0, 1, 0, 0), 2)
  /** The same file under two names. */
  const LINKED := NS(map[A := 2, B := 2], map[ROOT := DIR, 2 := FILE.(nlink := 2)], {}, Quota(0, 1, 0, 0), 2)
  /** The file unlinked. */
  const UNLINKED := NS(map[], map[ROOT := DIR, 2 := FILE.(nlink := 0)], {Grave(0, 2)}, Quota(0, 0, 0, 0), 2)
  /** Its name taken by a second file. */
  const REUSED := NS(map[A := 3], map[ROOT := DIR, 2 := FILE.(nlink := 0), 3 := FILE], {Grave(0, 2)}, Quota(0, 1, 0, 0), 3)
  /** One directory. */
  const NESTED := NS(map[A := 2], map[ROOT := DIR.(nlink := 3), 2 := DIR], {}, Quota(0, 1, 0, 0), 2)
  /** A file in it. */
  const FILLED := NS(map[A := 2, Slot(2, "x") := 3], map[ROOT := DIR.(nlink := 3), 2 := DIR, 3 := FILE], {}, Quota(0, 2, 0, 0), 3)
  /** The directory removed. */
  const REMOVED := NS(map[], map[ROOT := DIR, 2 := DIR.(nlink := 0)], {Grave(0, 2)}, Quota(0, 0, 0, 0), 2)
  /** The directory removed and a file beside it. */
  const LEFT := NS(map[B := 3], map[ROOT := DIR, 2 := DIR.(nlink := 0), 3 := FILE], {Grave(0, 2)}, Quota(0, 1, 0, 0), 3)
  /** Its name taken by a file. */
  const TAKEN := NS(map[A := 3], map[ROOT := DIR, 2 := DIR.(nlink := 0), 3 := FILE], {Grave(0, 2)}, Quota(0, 1, 0, 0), 3)
  /** Two directories. */
  const TWINS := NS(map[A := 2, B := 3], map[ROOT := DIR.(nlink := 4), 2 := DIR, 3 := DIR], {}, Quota(0, 2, 0, 0), 3)

  lemma NamedReachable()
    ensures Reachable(NAMED)
  {
    ReachableStart();
    var op := OpCommit(ROOT, "a", FILE, 0);
    var r := Run(Fresh(DIR), op);
    assert r.Ok? && r.value.quota == NAMED.quota && r.value.graves == NAMED.graves && r.value.next == NAMED.next;
    assert r.value.dentry == NAMED.dentry;
    assert r.value.inode == NAMED.inode;
    ReachableNext(Fresh(DIR), op, NAMED);
  }

  lemma LinkedReachable()
    ensures Reachable(LINKED)
  {
    NamedReachable();
    var op := OpLink(ROOT, "b", 2, 0);
    var r := Run(NAMED, op);
    assert r.Ok? && r.value.quota == LINKED.quota && r.value.graves == LINKED.graves && r.value.next == LINKED.next;
    assert r.value.dentry == LINKED.dentry;
    assert r.value.inode == LINKED.inode;
    ReachableNext(NAMED, op, LINKED);
  }

  /** The first with its content, still named and then not. */
  function Holding(c: Content): NS {
    NAMED.(inode := map[ROOT := DIR, 2 := FILE.(content := c)])
  }

  function Discarded(c: Content): NS {
    UNLINKED.(inode := map[ROOT := DIR, 2 := FILE.(content := c, nlink := 0)])
  }

  lemma HoldingReachable(c: Content)
    ensures Reachable(Holding(c))
  {
    ReachableStart();
    var op, s := OpCommit(ROOT, "a", FILE.(content := c), 0), Holding(c);
    var r := Run(Fresh(DIR), op);
    assert r.Ok? && r.value.quota == s.quota && r.value.graves == s.graves && r.value.next == s.next;
    assert r.value.dentry == s.dentry;
    assert r.value.inode == s.inode;
    ReachableNext(Fresh(DIR), op, s);
  }

  lemma DiscardedReachable(c: Content)
    ensures Reachable(Discarded(c))
  {
    HoldingReachable(c);
    var op, s := OpRemove(ROOT, "a", 0), Discarded(c);
    var r := Run(Holding(c), op);
    assert r.Ok? && r.value.quota == s.quota && r.value.graves == s.graves && r.value.next == s.next;
    assert r.value.dentry == s.dentry;
    assert r.value.inode == s.inode;
    ReachableNext(Holding(c), op, s);
  }

  /** A second file with the same content committed afterwards. */
  function Retaken(c: Content): NS {
    NS(map[B := 3], map[ROOT := DIR, 2 := FILE.(content := c, nlink := 0), 3 := FILE.(content := c)], {Grave(0, 2)}, Quota(0, 1, 0, 0), 3)
  }

  lemma RetakenIs(c: Content)
    ensures CommitFile(Discarded(c), ROOT, "b", FILE.(content := c), 0) == Ok(Retaken(c))
  {
    var r, s := CommitFile(Discarded(c), ROOT, "b", FILE.(content := c), 0), Retaken(c);
    assert r.Ok? && r.value.quota == s.quota && r.value.graves == s.graves && r.value.next == s.next;
    assert r.value.dentry == s.dentry;
    assert r.value.inode == s.inode;
  }

  lemma RetakenReachable(c: Content)
    ensures Reachable(Retaken(c))
  {
    DiscardedReachable(c);
    RetakenIs(c);
    ReachableNext(Discarded(c), OpCommit(ROOT, "b", FILE.(content := c), 0), Retaken(c));
  }

  lemma UnlinkedIs()
    ensures RemoveEntry(NAMED, ROOT, "a", 0) == Ok(UNLINKED)
  {
    var r := RemoveEntry(NAMED, ROOT, "a", 0);
    assert r.Ok? && r.value.quota == UNLINKED.quota && r.value.graves == UNLINKED.graves && r.value.next == UNLINKED.next;
    assert r.value.dentry == UNLINKED.dentry;
    assert r.value.inode == UNLINKED.inode;
  }

  lemma UnlinkedReachable()
    ensures Reachable(UNLINKED)
  {
    NamedReachable();
    UnlinkedIs();
    ReachableNext(NAMED, OpRemove(ROOT, "a", 0), UNLINKED);
  }

  lemma ReusedIs()
    ensures CommitFile(UNLINKED, ROOT, "a", FILE, 0) == Ok(REUSED)
  {
    var r := CommitFile(UNLINKED, ROOT, "a", FILE, 0);
    assert r.Ok? && r.value.quota == REUSED.quota && r.value.graves == REUSED.graves && r.value.next == REUSED.next;
    assert r.value.dentry == REUSED.dentry;
    assert r.value.inode == REUSED.inode;
  }

  lemma ReusedReachable()
    ensures Reachable(REUSED)
  {
    UnlinkedReachable();
    ReusedIs();
    ReachableNext(UNLINKED, OpCommit(ROOT, "a", FILE, 0), REUSED);
  }

  lemma NestedIs()
    ensures CommitMkdir(Fresh(DIR), ROOT, "a", DIR, 0) == Ok(NESTED)
  {
    var r := CommitMkdir(Fresh(DIR), ROOT, "a", DIR, 0);
    assert r.Ok? && r.value.quota == NESTED.quota && r.value.graves == NESTED.graves && r.value.next == NESTED.next;
    assert r.value.dentry == NESTED.dentry;
    assert r.value.inode == NESTED.inode;
  }

  lemma NestedReachable()
    ensures Reachable(NESTED)
  {
    ReachableStart();
    NestedIs();
    var op := OpMkdir(ROOT, "a", DIR, 0);
    ReachableNext(Fresh(DIR), op, NESTED);
  }

  lemma FilledIs()
    ensures CommitFile(NESTED, 2, "x", FILE, 0) == Ok(FILLED)
  {
    var r := CommitFile(NESTED, 2, "x", FILE, 0);
    assert r.Ok? && r.value.quota == FILLED.quota && r.value.graves == FILLED.graves && r.value.next == FILLED.next;
    assert r.value.dentry == FILLED.dentry;
    assert r.value.inode == FILLED.inode;
  }

  lemma FilledReachable()
    ensures Reachable(FILLED)
  {
    NestedReachable();
    FilledIs();
    var op := OpCommit(2, "x", FILE, 0);
    assert NESTED.dentry[A] == 2;
    ReachableNext(NESTED, op, FILLED);
  }

  lemma RemovedIs()
    ensures RemoveEntry(NESTED, ROOT, "a", 0) == Ok(REMOVED)
  {
    var r := RemoveEntry(NESTED, ROOT, "a", 0);
    assert r.Ok? && r.value.quota == REMOVED.quota && r.value.graves == REMOVED.graves && r.value.next == REMOVED.next;
    assert r.value.dentry == REMOVED.dentry;
    assert r.value.inode == REMOVED.inode;
  }

  lemma RemovedReachable()
    ensures Reachable(REMOVED)
  {
    NestedReachable();
    RemovedIs();
    ReachableNext(NESTED, OpRemove(ROOT, "a", 0), REMOVED);
  }

  lemma TakenIs()
    ensures CommitFile(REMOVED, ROOT, "a", FILE, 0) == Ok(TAKEN)
  {
    var r := CommitFile(REMOVED, ROOT, "a", FILE, 0);
    assert r.Ok? && r.value.quota == TAKEN.quota && r.value.graves == TAKEN.graves && r.value.next == TAKEN.next;
    assert r.value.dentry == TAKEN.dentry;
    assert r.value.inode == TAKEN.inode;
  }

  lemma LeftReachable()
    ensures Reachable(LEFT)
  {
    RemovedReachable();
    var op := OpCommit(ROOT, "b", FILE, 0);
    var r := Run(REMOVED, op);
    assert r.Ok? && r.value.quota == LEFT.quota && r.value.graves == LEFT.graves && r.value.next == LEFT.next;
    assert r.value.dentry == LEFT.dentry;
    assert r.value.inode == LEFT.inode;
    ReachableNext(REMOVED, op, LEFT);
  }

  lemma TwinsAre()
    ensures CommitMkdir(NESTED, ROOT, "b", DIR, 0) == Ok(TWINS)
  {
    var r := CommitMkdir(NESTED, ROOT, "b", DIR, 0);
    assert r.Ok? && r.value.quota == TWINS.quota && r.value.graves == TWINS.graves && r.value.next == TWINS.next;
    assert r.value.dentry == TWINS.dentry;
    assert r.value.inode == TWINS.inode;
  }

  lemma TwinsReachable()
    ensures Reachable(TWINS)
  {
    NestedReachable();
    TwinsAre();
    var op := OpMkdir(ROOT, "b", DIR, 0);
    ReachableNext(NESTED, op, TWINS);
  }

  // --- one call further ---------------------------------------------------------------------------

  /** Renaming one name of a file onto its other name. */
  lemma RenameMiscounts()
    ensures Reachable(LINKED) && Rename(LINKED, ROOT, "a", ROOT, "b", 0).Ok?
    ensures !Counted(BookOf(Rename(LINKED, ROOT, "a", ROOT, "b", 0).value))
  {
    LinkedReachable();
    ReachableInv(LINKED);
    RenameCountsIff(LINKED, ROOT, "a", ROOT, "b", 0, Rename(LINKED, ROOT, "a", ROOT, "b", 0).value);
  }

  /** Linking a file whose last name is gone. */
  lemma LinkMisburies()
    ensures Reachable(UNLINKED) && Link(UNLINKED, ROOT, "b", 2, 0).Ok?
    ensures !Buried(BookOf(Link(UNLINKED, ROOT, "b", 2, 0).value))
  {
    UnlinkedReachable();
    ReachableInv(UNLINKED);
    assert Grave(0, 2) in UNLINKED.graves;
    LinkBuriedIff(UNLINKED, ROOT, "b", 2, 0);
  }

  /** A detached write of five bytes to a file that still has its name. */
  lemma DetachedMischarges()
    ensures Reachable(NAMED) && UpdateInodeContent(NAMED, 2, FILE.(size := 5)).Ok?
    ensures !Exact(BookOf(UpdateInodeContent(NAMED, 2, FILE.(size := 5)).value))
  {
    NamedReachable();
    ReachableInv(NAMED);
    assert NAMED.dentry[A] == 2;
    DetachedExactIff(NAMED, 2, FILE.(size := 5));
  }

  /** Removing the name of a directory that holds a file. */
  lemma RemoveCutsOff()
    ensures Reachable(FILLED) && RemoveEntry(FILLED, ROOT, "a", 0).Ok?
    ensures !Tree(RemoveEntry(FILLED, ROOT, "a", 0).value)
  {
    FilledReachable();
    ReachableInv(FILLED);
    assert Slot(2, "x") in FILLED.dentry.Keys;
    RemoveTreeIff(FILLED, ROOT, "a", 0);
  }

  /** Publishing into a directory that was removed. */
  lemma PublishHangsOff()
    ensures Reachable(REMOVED) && PublishFile(REMOVED, 2, "x", FILE, 0).Ok?
    ensures !Tree(PublishFile(REMOVED, 2, "x", FILE, 0).value)
  {
    RemovedReachable();
    ReachableInv(REMOVED);
    PublishTreeIff(REMOVED, 2, "x", FILE, 0);
  }

  /** Committing, making a directory, linking and renaming there. */
  lemma CommitHangsOff()
    ensures Reachable(REMOVED) && CommitFile(REMOVED, 2, "x", FILE, 0).Ok?
    ensures !Tree(CommitFile(REMOVED, 2, "x", FILE, 0).value)
  {
    RemovedReachable();
    ReachableInv(REMOVED);
    CommitTreeIff(REMOVED, 2, "x", FILE, 0);
  }

  lemma MkdirHangsOff()
    ensures Reachable(REMOVED) && CommitMkdir(REMOVED, 2, "x", DIR, 0).Ok?
    ensures !Tree(CommitMkdir(REMOVED, 2, "x", DIR, 0).value)
  {
    RemovedReachable();
    ReachableInv(REMOVED);
    MkdirTreeIff(REMOVED, 2, "x", DIR, 0);
  }

  lemma LinkHangsOff()
    ensures Reachable(LEFT) && Link(LEFT, 2, "x", 3, 0).Ok?
    ensures !Tree(Link(LEFT, 2, "x", 3, 0).value)
  {
    LeftReachable();
    ReachableInv(LEFT);
    LinkTreeIff(LEFT, 2, "x", 3, 0);
  }

  lemma RenameHangsOff()
    ensures Reachable(LEFT) && Rename(LEFT, ROOT, "b", 2, "x", 0).Ok?
    ensures !Tree(Rename(LEFT, ROOT, "b", 2, "x", 0).value)
  {
    LeftReachable();
    ReachableInv(LEFT);
    RenameTreeIff(LEFT, ROOT, "b", 2, "x", 0, Rename(LEFT, ROOT, "b", 2, "x", 0).value);
  }

  /** Two inodes in use, a limit of one: nothing can be created, and removing brings usage down to it. */
  lemma LimitBelowUsage()
    ensures Reachable(FILLED) && Reachable(SetQuotaLimits(FILLED, 0, 1))
    ensures var s := SetQuotaLimits(FILLED, 0, 1);
            && s.quota.inodesUsed == 2 > s.quota.inodesLimit && CommitFile(s, ROOT, "b", FILE, 0) == Err(QuotaExceeded)
            && RemoveEntry(s, 2, "x", 0).Ok? && RemoveEntry(s, 2, "x", 0).value.quota.inodesUsed == 1
  {
    FilledReachable();
    ReachableNext(FILLED, OpLimits(0, 1), SetQuotaLimits(FILLED, 0, 1));
  }

  /** Renaming to the empty name. */
  lemma RenameHides()
    ensures Reachable(NAMED) && Rename(NAMED, ROOT, "a", ROOT, "", 0).Ok?
    ensures ResolveFrom(Rename(NAMED, ROOT, "a", ROOT, "", 0).value, ROOT, [""]) != Ok(2)
  {
    NamedReachable();
    ReachableInv(NAMED);
    RenameResolvableIff(NAMED, ROOT, "a", ROOT, "", 0, Rename(NAMED, ROOT, "a", ROOT, "", 0).value);
  }

  lemma FreshCounted()
    ensures DirCounted(Fresh(DIR))
  {
    var s := Fresh(DIR);
    assert LinksOf(s.inode) == map[ROOT := 2] && Subdirs(s.dentry, {ROOT}, ROOT) == {};
  }

  lemma NestedCounted()
    ensures DirCounted(NESTED)
  {
    hide CommitMkdir;
    FreshInv(DIR);
    FreshCounted();
    NestedIs();
    MkdirCounts(Fresh(DIR), ROOT, "a", DIR, 0);
  }

  lemma TwinsCounted()
    ensures DirCounted(TWINS)
  {
    hide CommitMkdir;
    NestedReachable();
    ReachableInv(NESTED);
    NestedCounted();
    TwinsAre();
    MkdirCounts(NESTED, ROOT, "b", DIR, 0);
  }

  /** Renaming one directory onto another, empty one. */
  lemma RenameMiscountsDirs()
    ensures Reachable(TWINS) && DirCounted(TWINS) && Rename(TWINS, ROOT, "a", ROOT, "b", 0).Ok?
    ensures !DirCounted(Rename(TWINS, ROOT, "a", ROOT, "b", 0).value)
  {
    hide DirCounted, Reachable;
    TwinsReachable();
    TwinsCounted();
    ReachableInv(TWINS);
    assert TWINS.dentry[A] == 2;
    ParentNotWithin(TWINS, A);
    RenameDirCountsIff(TWINS, ROOT, "a", ROOT, "b", 0, Rename(TWINS, ROOT, "a", ROOT, "b", 0).value);
  }
}
