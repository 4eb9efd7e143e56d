/**
 Which coherence keys the mutable operations of pkg/repo bump (write.go), and why that is enough: every record and
 every directory an operation changes has its key bumped, so a negative entry that is still trusted is still true.
 */
module Invalidation {
  import opened Base
  import opened Namespace
  import opened Accounting
  import opened TreeShape
  import opened Histories
  import opened LeaseCache
  import C = Coherence
  import W = Witnesses

  // --- keys ----------------------------------------------------------------------------------

  const DIGITS := "0123456789"

  function Decimal(n: nat): string {
    if n < 10 then [DIGITS[n]] else Decimal(n / 10) + [DIGITS[n % 10]]
  }

  lemma DigitsDistinct(i: nat, j: nat)
    requires i < 10 && j < 10 && DIGITS[i] == DIGITS[j]
    ensures i == j
  {
  }

  lemma {:induction false} DecimalInjective(n: nat, m: nat)
    requires Decimal(n) == Decimal(m)
    ensures n == m
  {
    var a, b := Decimal(n), Decimal(m);
    assert a[|a| - 1] == DIGITS[n % 10] && b[|b| - 1] == DIGITS[m % 10];
    DigitsDistinct(n % 10, m % 10);
    if n >= 10 && m >= 10 {
      assert Decimal(n / 10) == a[..|a| - 1] && Decimal(m / 10) == b[..|b| - 1];
      DecimalInjective(n / 10, m / 10);
    } else {
      DecimalLonger(n);
      DecimalLonger(m);
    }
  }

  lemma DecimalLonger(n: nat)
    ensures |Decimal(n)| == 1 <==> n < 10
  {
    if n >= 10 {
      assert |Decimal(n / 10)| >= 1;
    }
  }

  /** DirCoherenceKey and InodeCoherenceKey. */
  function Key(obj: Obj): C.Name {
    match obj
    case DirObj(id) => "dir:" + Decimal(id)
    case InoObj(id) => "inode:" + Decimal(id)
  }

  lemma KeyInjective(x: Obj, y: Obj)
    requires Key(x) == Key(y)
    ensures x == y
  {
    assert Key(x)[0] == if x.DirObj? then 'd' else 'i';
    assert Key(y)[0] == if y.DirObj? then 'd' else 'i';
    var n := if x.DirObj? then 4 else 6;
    assert Decimal(x.id) == Key(x)[n..] && Decimal(y.id) == Key(y)[n..];
    DecimalInjective(x.id, y.id);
  }

  // --- the bumps of each operation -------------------------------------------------------------

  /** bumpDirEntries: the directory's version, its lease, and its own record. */
  function BumpDirEntries(dir: InodeID): seq<C.Action> {
    [C.DoBumpDir(Key(DirObj(dir))), C.DoBump(Key(DirObj(dir))), C.DoBump(Key(InoObj(dir)))]
  }

  function BumpInode(id: InodeID): seq<C.Action> {
    [C.DoBump(Key(InoObj(id)))]
  }

  function BumpBound(s: NS, dir: InodeID, name: string): seq<C.Action> {
    if Slot(dir, name) in s.dentry then BumpInode(s.dentry[Slot(dir, name)]) else []
  }

  /** Operations of a mutable repo. Mknod and Symlink create as OpPublish does; Unlink and Rmdir are OpRemove. */
  predicate Mutable(op: Op) {
    op.OpPublish? || op.OpCommit? || op.OpMkdir? || op.OpLink? || op.OpRemove? || op.OpRename? || op.OpDetached? || op.OpSetAttr?
  }

  /**
   What an operation that succeeded and led to `s'` tells the manager, in order. Which inode a removal or a rename bumps
   is looked up before the transaction, in transactions of its own: in `seen`, and for the name a rename moves then in
   `again`.
   */
  function Bumps(seen: NS, again: NS, s': NS, op: Op): seq<C.Action>
    requires Mutable(op)
  {
    match op
    case OpPublish(dir, _, _, _) => BumpDirEntries(dir)
    case OpCommit(dir, name, _, _) => BumpBound(s', dir, name) + BumpDirEntries(dir)
    case OpMkdir(dir, _, _, _) => BumpDirEntries(dir)
    case OpLink(dir, _, target, _) => BumpInode(target) + BumpDirEntries(dir)
    case OpRemove(dir, name, _) => BumpBound(seen, dir, name) + BumpDirEntries(dir)
    case OpRename(oldDir, oldName, newDir, newName, _) =>
      BumpBound(seen, newDir, newName) + BumpBound(again, oldDir, oldName) + BumpDirEntries(oldDir)
      + if newDir != oldDir then BumpDirEntries(newDir) else []
    case OpDetached(id, _) => BumpInode(id)
    case OpSetAttr(id, _, _) => BumpInode(id)
  }

  // --- what each operation changes -------------------------------------------------------------

  /** Records outside `ids` and directories outside `dirs` are as they were. */
  ghost predicate Confined(s: NS, s': NS, ids: set<InodeID>, dirs: set<InodeID>) {
    && (forall id :: id in s.inode && id !in ids ==> id in s'.inode && s'.inode[id] == s.inode[id])
    && (forall k: Slot :: k.dir !in dirs ==> (k in s'.dentry <==> k in s.dentry) && (k in s.dentry ==> s'.dentry[k] == s.dentry[k]))
  }

  lemma CreateConfined(s: NS, op: Op)
    requires (op.OpPublish? || op.OpMkdir?) && Run(s, op).Ok?
    ensures Confined(s, Run(s, op).value, {op.dir, s.next + 1}, {op.dir})
  {
  }

  lemma CommitConfined(s: NS, op: Op)
    requires op.OpCommit? && Run(s, op).Ok?
    ensures var s' := Run(s, op).value;
            Slot(op.dir, op.name) in s'.dentry && Confined(s, s', {op.dir, s'.dentry[Slot(op.dir, op.name)]}, {op.dir})
  {
  }

  lemma LinkConfined(s: NS, op: Op)
    requires op.OpLink? && Run(s, op).Ok?
    ensures Confined(s, Run(s, op).value, {op.dir, op.target}, {op.dir})
  {
  }

  lemma RemoveConfined(s: NS, op: Op)
    requires op.OpRemove? && Run(s, op).Ok?
    ensures Slot(op.dir, op.name) in s.dentry
    ensures Confined(s, Run(s, op).value, {op.dir, s.dentry[Slot(op.dir, op.name)]}, {op.dir})
  {
  }

  lemma DisplaceConfined(s: NS, src: InodeRecord, newDir: InodeID, newName: string, at: Time)
    requires Displace(s, src, newDir, newName, at).Ok?
    ensures Confined(s, Displace(s, src, newDir, newName, at).value,
                   if Slot(newDir, newName) in s.dentry then {s.dentry[Slot(newDir, newName)]} else {}, {})
  {
  }

  lemma MoveConfined(s: NS, src: InodeID, srcRec: InodeRecord, from: Slot, to: Slot, at: Time)
    requires MoveBinding(s, src, srcRec, from, to, at).Ok?
    ensures Confined(s, MoveBinding(s, src, srcRec, from, to, at).value, {src, from.dir, to.dir}, {from.dir, to.dir})
  {
  }

  lemma ConfinedJoins(s: NS, s1: NS, s2: NS, ids: set<InodeID>, dirs: set<InodeID>, ids': set<InodeID>, dirs': set<InodeID>)
    requires Confined(s, s1, ids, dirs) && Confined(s1, s2, ids', dirs')
    ensures Confined(s, s2, ids + ids', dirs + dirs')
  {
  }

  /** The records a rename may change: the moved inode, the displaced one, and the two directories. */
  ghost function RenameIDs(s: NS, op: Op): set<InodeID>
    requires op.OpRename?
  {
    (if Slot(op.newDir, op.newName) in s.dentry then {s.dentry[Slot(op.newDir, op.newName)]} else {})
    + (if Slot(op.oldDir, op.oldName) in s.dentry then {s.dentry[Slot(op.oldDir, op.oldName)]} else {})
    + {op.oldDir, op.newDir}
  }

  lemma RenameConfined(s: NS, op: Op)
    requires op.OpRename? && Run(s, op).Ok?
    ensures Confined(s, Run(s, op).value, RenameIDs(s, op), {op.oldDir, op.newDir})
  {
    if op.oldDir == op.newDir && op.oldName == op.newName {
    } else {
      var src := s.dentry[Slot(op.oldDir, op.oldName)];
      var srcRec := s.inode[src];
      DisplaceConfined(s, srcRec, op.newDir, op.newName, op.at);
      var s1 := Displace(s, srcRec, op.newDir, op.newName, op.at).value;
      MoveConfined(s1, src, srcRec, Slot(op.oldDir, op.oldName), Slot(op.newDir, op.newName), op.at);
      var gone := if Slot(op.newDir, op.newName) in s.dentry then {s.dentry[Slot(op.newDir, op.newName)]} else {};
      ConfinedJoins(s, s1, Run(s, op).value, gone, {}, {src, op.oldDir, op.newDir}, {op.oldDir, op.newDir});
      assert gone + {src, op.oldDir, op.newDir} == RenameIDs(s, op);
      assert {} + {op.oldDir, op.newDir} == {op.oldDir, op.newDir};
    }
  }

  // --- completeness ----------------------------------------------------------------------------

  ghost predicate Changed(s: NS, s': NS, id: InodeID) {
    id in s.inode && (id !in s'.inode || s'.inode[id] != s.inode[id])
  }

  ghost predicate Rebound(s: NS, s': NS, k: Slot) {
    !((k in s'.dentry <==> k in s.dentry) && (k in s.dentry ==> s'.dentry[k] == s.dentry[k]))
  }

  /** Every changed record has its key bumped, every directory with a changed name its version and its lease. */
  ghost predicate Complete(s: NS, s': NS, acts: seq<C.Action>) {
    && (forall id :: Changed(s, s', id) ==> C.DoBump(Key(InoObj(id))) in acts)
    && (forall k: Slot :: Rebound(s, s', k) ==> C.DoBumpDir(Key(DirObj(k.dir))) in acts && C.DoBump(Key(DirObj(k.dir))) in acts)
  }

  lemma DirBumped(dir: InodeID)
    ensures var acts := BumpDirEntries(dir);
            C.DoBumpDir(Key(DirObj(dir))) in acts && C.DoBump(Key(DirObj(dir))) in acts && C.DoBump(Key(InoObj(dir))) in acts
  {
    var acts := BumpDirEntries(dir);
    assert acts[0] == C.DoBumpDir(Key(DirObj(dir))) && acts[1] == C.DoBump(Key(DirObj(dir))) && acts[2] == C.DoBump(Key(InoObj(dir)));
  }

  lemma InodeBumped(id: InodeID)
    ensures C.DoBump(Key(InoObj(id))) in BumpInode(id)
  {
  }

  /** The inodes an operation is about: those its lookups found and the directories it works in. */
  function About(seen: NS, again: NS, s': NS, op: Op): set<InodeID>
    requires Mutable(op)
  {
    Dirs(op) + match op
    case OpCommit(dir, name, _, _) => At(s', dir, name)
    case OpLink(_, _, target, _) => {target}
    case OpRemove(dir, name, _) => At(seen, dir, name)
    case OpRename(oldDir, oldName, newDir, newName, _) => At(again, oldDir, oldName) + At(seen, newDir, newName)
    case OpDetached(id, _) => {id}
    case OpSetAttr(id, _, _) => {id}
    case _ => {}
  }

  function At(s: NS, dir: InodeID, name: string): set<InodeID> {
    if Slot(dir, name) in s.dentry then {s.dentry[Slot(dir, name)]} else {}
  }

  /** Nothing is bumped that the operation is not about: other holders keep their leases. */
  lemma BumpsNoMore(seen: NS, again: NS, s': NS, op: Op, a: C.Action)
    requires Mutable(op) && a in Bumps(seen, again, s', op)
    ensures || (exists id :: id in About(seen, again, s', op) && a == C.DoBump(Key(InoObj(id))))
            || (exists d :: d in Dirs(op) && (a == C.DoBumpDir(Key(DirObj(d))) || a == C.DoBump(Key(DirObj(d)))))
  {
    hide Key;
  }

  lemma AboutBumped(seen: NS, again: NS, s': NS, op: Op, id: InodeID)
    requires Mutable(op) && id in About(seen, again, s', op)
    ensures C.DoBump(Key(InoObj(id))) in Bumps(seen, again, s', op)
  {
    hide Key;
    InodeBumped(id);
    if id in Dirs(op) {
      DirBumped(id);
    }
  }

  /** An inode's key is bumped exactly if the operation is about it. */
  lemma BumpedIff(seen: NS, again: NS, s': NS, op: Op, id: InodeID)
    requires Mutable(op)
    ensures C.DoBump(Key(InoObj(id))) in Bumps(seen, again, s', op) <==> id in About(seen, again, s', op)
  {
    hide Key, Bumps, About;
    var a := C.DoBump(Key(InoObj(id)));
    if a in Bumps(seen, again, s', op) {
      BumpsNoMore(seen, again, s', op, a);
      if x :| x in About(seen, again, s', op) && a == C.DoBump(Key(InoObj(x))) {
        KeyInjective(InoObj(id), InoObj(x));
      } else {
        var d :| d in Dirs(op) && (a == C.DoBumpDir(Key(DirObj(d))) || a == C.DoBump(Key(DirObj(d))));
        KeyInjective(InoObj(id), DirObj(d));
      }
    }
    if id in About(seen, again, s', op) {
      AboutBumped(seen, again, s', op, id);
    }
  }

  /** A transaction changes only records of inodes that the operation is about, looked up in the state it runs in. */
  lemma ChangedAbout(s: NS, op: Op, id: InodeID)
    requires Mutable(op) && Inv(s) && Run(s, op).Ok? && Changed(s, Run(s, op).value, id)
    ensures id in About(s, s, Run(s, op).value, op)
  {
    hide Run, Tree, Balanced;
    FreshInode(s);
    match op {
      case OpPublish(_, _, _, _) => CreateConfined(s, op);
      case OpMkdir(_, _, _, _) => CreateConfined(s, op);
      case OpCommit(_, _, _, _) => CommitConfined(s, op);
      case OpLink(_, _, _, _) => LinkConfined(s, op);
      case OpRemove(_, _, _) => RemoveConfined(s, op);
      case OpRename(_, _, _, _, _) => RenameConfined(s, op);
      case OpDetached(_, _) => DetachedConfined(s, op);
      case OpSetAttr(_, _, _) => DetachedConfined(s, op);
    }
  }

  /** The lookups found what the transaction then works on. */
  predicate Found(seen: NS, again: NS, s: NS, op: Op) {
    match op
    case OpRemove(dir, name, _) => At(seen, dir, name) == At(s, dir, name)
    case OpRename(oldDir, oldName, newDir, newName, _) =>
      At(seen, newDir, newName) == At(s, newDir, newName) && At(again, oldDir, oldName) == At(s, oldDir, oldName)
    case _ => true
  }

  lemma ReboundBumped(seen: NS, again: NS, s: NS, op: Op, k: Slot)
    requires Mutable(op) && Run(s, op).Ok? && Rebound(s, Run(s, op).value, k)
    ensures var acts := Bumps(seen, again, Run(s, op).value, op);
            C.DoBumpDir(Key(DirObj(k.dir))) in acts && C.DoBump(Key(DirObj(k.dir))) in acts
  {
    hide Key, Run;
    ReboundIn(s, op, k);
    DirsBumped(seen, again, Run(s, op).value, op, k.dir);
  }

  /**
   Invalidation completeness, whatever other calls did between an operation's lookups and its transaction: every directory
   in which it changed a name has its version and its lease bumped, and of the inodes whose records it changed exactly
   those that its lookups found. So it is complete exactly if they found all those, as they did if nobody rebound a
   name in between. A commit bumps its file, new or not.
   */
  lemma BumpsComplete(seen: NS, again: NS, s: NS, op: Op)
    requires Mutable(op) && Inv(s) && Run(s, op).Ok?
    ensures var s' := Run(s, op).value; var acts := Bumps(seen, again, s', op);
            && (forall id :: Changed(s, s', id) ==> (C.DoBump(Key(InoObj(id))) in acts <==> id in About(seen, again, s', op)))
            && (Complete(s, s', acts) <==> forall id :: Changed(s, s', id) ==> id in About(seen, again, s', op))
            && (Found(seen, again, s, op) ==> Complete(s, s', acts))
    ensures op.OpCommit? ==>
              var s' := Run(s, op).value;
              Slot(op.dir, op.name) in s'.dentry && C.DoBump(Key(InoObj(s'.dentry[Slot(op.dir, op.name)]))) in Bumps(seen, again, s', op)
  {
    hide Key, Run, Tree, Balanced, Bumps, Changed, Rebound;
    var s' := Run(s, op).value;
    forall id ensures C.DoBump(Key(InoObj(id))) in Bumps(seen, again, s', op) <==> id in About(seen, again, s', op) {
      BumpedIff(seen, again, s', op, id);
    }
    forall id | Changed(s, s', id) ensures Found(seen, again, s, op) ==> id in About(seen, again, s', op) {
      ChangedAbout(s, op, id);
    }
    forall k: Slot | Rebound(s, s', k)
      ensures C.DoBumpDir(Key(DirObj(k.dir))) in Bumps(seen, again, s', op) && C.DoBump(Key(DirObj(k.dir))) in Bumps(seen, again, s', op)
    {
      ReboundBumped(seen, again, s, op, k);
    }
    if op.OpCommit? {
      CommitConfined(s, op);
    }
  }

  /** In particular a rename, of any state: moved inode, displaced inode and both directories. */
  lemma RenameComplete(seen: NS, again: NS, s: NS, op: Op)
    requires op.OpRename? && Run(s, op).Ok? && Found(seen, again, s, op)
    ensures Complete(s, Run(s, op).value, Bumps(seen, again, Run(s, op).value, op))
  {
    hide Run, Key, Bumps;
    var s' := Run(s, op).value;
    RenameConfined(s, op);
    forall id | Changed(s, s', id) ensures C.DoBump(Key(InoObj(id))) in Bumps(seen, again, s', op) {
      assert id in RenameIDs(s, op);
      AboutBumped(seen, again, s', op, id);
    }
    forall k: Slot | Rebound(s, s', k)
      ensures C.DoBumpDir(Key(DirObj(k.dir))) in Bumps(seen, again, s', op) && C.DoBump(Key(DirObj(k.dir))) in Bumps(seen, again, s', op)
    {
      ReboundBumped(seen, again, s, op, k);
    }
  }

  /** The lookup of an unlink finds one file, the name passes to another, and that one's record changes unannounced. */
  lemma RemovalMissed()
    ensures W.Reachable(W.REUSED) && RemoveEntry(W.NAMED, ROOT, "a", 0) == Ok(W.UNLINKED) && CommitFile(W.UNLINKED, ROOT, "a", W.FILE, 0) == Ok(W.REUSED)
    ensures var op := OpRemove(ROOT, "a", 0); var r := Run(W.REUSED, op);
            r.Ok? && Changed(W.REUSED, r.value, 3) && C.DoBump(Key(InoObj(3))) !in Bumps(W.NAMED, W.NAMED, r.value, op)
  {
    hide Key, Bumps;
    W.UnlinkedIs();
    W.ReusedIs();
    W.ReusedReachable();
    var op := OpRemove(ROOT, "a", 0);
    BumpedIff(W.NAMED, W.NAMED, Run(W.REUSED, op).value, op, 3);
  }

  lemma DetachedConfined(s: NS, op: Op)
    requires (op.OpDetached? || op.OpSetAttr?) && Run(s, op).Ok?
    ensures Confined(s, Run(s, op).value, {op.id}, {})
  {
  }

  // --- negative entries over sequential histories --------------------------------------------------

  /** The directories an operation may rebind names in. */
  function Dirs(op: Op): set<InodeID>
    requires Mutable(op)
  {
    match op
    case OpPublish(dir, _, _, _) => {dir}
    case OpCommit(dir, _, _, _) => {dir}
    case OpMkdir(dir, _, _, _) => {dir}
    case OpLink(dir, _, _, _) => {dir}
    case OpRemove(dir, _, _) => {dir}
    case OpRename(oldDir, _, newDir, _, _) => {oldDir, newDir}
    case OpDetached(_, _) => {}
    case OpSetAttr(_, _, _) => {}
  }

  lemma ReboundIn(s: NS, op: Op, k: Slot)
    requires Mutable(op) && Run(s, op).Ok? && Rebound(s, Run(s, op).value, k)
    ensures k.dir in Dirs(op)
  {
    hide Run;
    match op {
      case OpPublish(_, _, _, _) => CreateConfined(s, op);
      case OpMkdir(_, _, _, _) => CreateConfined(s, op);
      case OpCommit(_, _, _, _) => CommitConfined(s, op);
      case OpLink(_, _, _, _) => LinkConfined(s, op);
      case OpRemove(_, _, _) => RemoveConfined(s, op);
      case OpRename(_, _, _, _, _) => RenameConfined(s, op);
      case OpDetached(_, _) => DetachedConfined(s, op);
      case OpSetAttr(_, _, _) => DetachedConfined(s, op);
    }
  }

  lemma DirsBumped(seen: NS, again: NS, s': NS, op: Op, d: InodeID)
    requires Mutable(op) && d in Dirs(op)
    ensures C.DoBumpDir(Key(DirObj(d))) in Bumps(seen, again, s', op) && C.DoBump(Key(DirObj(d))) in Bumps(seen, again, s', op)
  {
    hide Key;
    DirBumped(d);
  }

  /** The namespace and the manager that vouches for it. */
  datatype System = System(ns: NS, coh: C.State)

  /** One completed call: a mutation with its bumps, a lookup that missed, or anything else the manager does. */
  datatype Turn = Mutation(op: Op) | Miss(holder: C.Name, dir: InodeID, name: string) | Manage(action: C.Action)

  predicate TurnOK(t: Turn) {
    match t
    case Mutation(op) => Mutable(op)
    case Miss(_, _, _) => true
    case Manage(a) => !a.DoGrantNegative?
  }

  /** A name a filesystem can pass. */
  predicate Passable(t: Turn) {
    t.Miss? ==> C.NUL !in t.name
  }

  function Told(c: C.State, acts: seq<C.Action>): C.State {
    C.After(c, acts, |acts|)
  }

  ghost function Take(y: System, t: Turn): System
    requires TurnOK(t)
  {
    match t
    case Mutation(op) =>
      var r := Run(y.ns, op);
      if r.Err? then y else System(r.value, Told(y.coh, Bumps(y.ns, y.ns, r.value, op)))
    case Miss(holder, dir, name) =>
      if Slot(dir, name) in y.ns.dentry then y else y.(coh := C.GrantNegative(y.coh, holder, Key(DirObj(dir)), name))
    case Manage(a) => y.(coh := C.Apply(y.coh, a))
  }

  ghost function TakeAll(y: System, ts: seq<Turn>): System
    requires forall t :: t in ts ==> TurnOK(t)
    decreases |ts|
  {
    if ts == [] then y else Take(TakeAll(y, ts[..|ts| - 1]), ts[|ts| - 1])
  }

  /** A negative entry recorded against the directory's present version vouches only for names that are unbound. */
  ghost predicate Vouches(y: System, dir: InodeID, key: string) {
    var k := C.NegKey(Key(DirObj(dir)), key);
    k in y.coh.neg ==>
      && y.coh.neg[k].dirver <= C.DirVersion(y.coh, Key(DirObj(dir)))
      && (y.coh.neg[k].dirver == C.DirVersion(y.coh, Key(DirObj(dir))) ==>
            forall holder: C.Name, name: string ::
              C.NUL !in name && C.NegKeyOf(holder, name) == key ==> Slot(dir, name) !in y.ns.dentry)
  }

  ghost predicate NegInv(y: System) {
    forall dir: InodeID, key: string :: Vouches(y, dir, key)
  }

  predicate IsBump(a: C.Action) {
    a.DoBump? || a.DoBumpDir?
  }

  lemma {:induction false} ToldNeg(c: C.State, acts: seq<C.Action>, n: nat)
    requires n <= |acts| && forall a :: a in acts ==> IsBump(a)
    ensures C.After(c, acts, n).neg == c.neg
  {
    if n > 0 {
      ToldNeg(c, acts, n - 1);
      assert IsBump(acts[n - 1]);
    }
  }

  lemma BumpsBump(s: NS, s': NS, op: Op)
    requires Mutable(op)
    ensures forall a :: a in Bumps(s, s, s', op) ==> IsBump(a)
  {
    hide Key;
  }

  lemma MutationVouches(y: System, op: Op, dir: InodeID, key: string)
    requires Vouches(y, dir, key) && Mutable(op)
    ensures Vouches(Take(y, Mutation(op)), dir, key)
  {
    hide Run, Bumps, Key;
    var r := Run(y.ns, op);
    if r.Ok? {
      var acts := Bumps(y.ns, y.ns, r.value, op);
      var dk := Key(DirObj(dir));
      BumpsBump(y.ns, r.value, op);
      ToldNeg(y.coh, acts, |acts|);
      C.NeverRegresses(y.coh, acts, 0, |acts|, dk);
      if dir in Dirs(op) {
        DirsBumped(y.ns, y.ns, r.value, op, dir);
        C.BumpedIsNewer(y.coh, acts, 0, |acts|, dk);
      } else {
        forall name: string ensures !Rebound(y.ns, r.value, Slot(dir, name)) {
          if Rebound(y.ns, r.value, Slot(dir, name)) {
            ReboundIn(y.ns, op, Slot(dir, name));
          }
        }
      }
    }
  }

  lemma MissVouches(y: System, t: Turn, dir: InodeID, key: string)
    requires t.Miss? && TurnOK(t) && Passable(t) && Vouches(y, dir, key)
    ensures Vouches(Take(y, t), dir, key)
  {
    if Slot(t.dir, t.name) !in y.ns.dentry && Key(DirObj(dir)) == Key(DirObj(t.dir)) && key == C.NegKeyOf(t.holder, t.name) {
      KeyInjective(DirObj(dir), DirObj(t.dir));
      forall holder: C.Name, name: string | C.NUL !in name && C.NegKeyOf(holder, name) == key
        ensures Slot(dir, name) !in y.ns.dentry
      {
        C.NegKeysDistinct(holder, name, t.holder, t.name);
      }
    }
  }

  lemma ManageVouches(y: System, t: Turn, dir: InodeID, key: string)
    requires t.Manage? && TurnOK(t) && Vouches(y, dir, key)
    ensures Vouches(Take(y, t), dir, key)
  {
    C.StepForward(y.coh, t.action, Key(DirObj(dir)));
    NegKept(y.coh, t.action);
  }

  lemma NegKept(c: C.State, a: C.Action)
    requires !a.DoGrantNegative?
    ensures C.Apply(c, a).neg == c.neg
  {
  }

  lemma {:induction false} HistoryVouches(y: System, ts: seq<Turn>)
    requires (forall t :: t in ts ==> TurnOK(t) && Passable(t)) && y.coh.neg == map[]
    ensures NegInv(TakeAll(y, ts))
    decreases |ts|
  {
    if ts != [] {
      var before, t := TakeAll(y, ts[..|ts| - 1]), ts[|ts| - 1];
      HistoryVouches(y, ts[..|ts| - 1]);
      forall dir: InodeID, key: string ensures Vouches(Take(before, t), dir, key) {
        assert Vouches(before, dir, key);
        if t.Mutation? {
          MutationVouches(before, t.op, dir, key);
        } else if t.Miss? {
          MissVouches(before, t, dir, key);
        } else {
          ManageVouches(before, t, dir, key);
        }
      }
    }
  }

  /** After any sequence of completed calls, a negative entry that is trusted is true: the name is unbound. */
  lemma {:induction false} TrustedNegativeIsTrue(y: System, ts: seq<Turn>, holder: C.Name, dir: InodeID, name: string)
    requires (forall t :: t in ts ==> TurnOK(t) && Passable(t)) && y.coh.neg == map[] && C.NUL !in name
    requires C.NegativeTrusted(TakeAll(y, ts).coh, holder, Key(DirObj(dir)), name)
    ensures Slot(dir, name) !in TakeAll(y, ts).ns.dentry
  {
    HistoryVouches(y, ts);
    assert Vouches(TakeAll(y, ts), dir, C.NegKeyOf(holder, name));
  }

  const NUL_NAME := "x" + [C.NUL] + "a"
  const NUL_HOLDER := "h" + [C.NUL] + "x"

  /** One miss of a name with a NUL in it, and another holder is told that a name which is bound does not exist. */
  lemma NulMisleads(now: Time, lease: Time)
    requires lease >= 0
    ensures var y, ts := System(W.NAMED, C.Start(now, lease)), [Miss("h", ROOT, NUL_NAME)];
            && W.Reachable(W.NAMED) && TurnOK(ts[0]) && TakeAll(y, ts).ns == W.NAMED && W.A in W.NAMED.dentry && W.A == Slot(ROOT, "a")
            && C.NegativeTrusted(TakeAll(y, ts).coh, NUL_HOLDER, Key(DirObj(ROOT)), "a")
  {
    hide Key;
    W.NamedReachable();
    var y, t := System(W.NAMED, C.Start(now, lease)), Miss("h", ROOT, NUL_NAME);
    assert [t][..0] == [] && TakeAll(y, []) == y;
    assert Slot(ROOT, NUL_NAME) !in y.ns.dentry by {
      assert |NUL_NAME| == 3;
    }
    assert C.Splits("h", NUL_NAME, NUL_HOLDER, "a") by {
      assert NUL_HOLDER == "h" + [C.NUL] + "x" && NUL_NAME == "x" + [C.NUL] + "a";
    }
    C.SplitCollides("h", NUL_NAME, NUL_HOLDER, "a");
  }
}
