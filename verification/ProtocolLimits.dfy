/** How the authority's handlers fit the protocol, and runs that show where its guarantees end. */
module ProtocolLimits {
  import opened Base
  import opened Namespace
  import opened Histories
  import opened LeaseCache
  import opened Protocol
  import Invalidation
  import TreeShape
  import Transactions
  import Handlers
  import W = Witnesses

  // --- the handlers --------------------------------------------------------------------------

  /**
   The objects a handler of the authority bumps (pkg/mds/server.go). Unlink and Rmdir bump the inode they looked up, in
   `seen`, before the transaction; Rename bumps the two directories only.
   */
  function HandlerKeys(seen: NS, s': NS, op: Op): set<Obj>
    requires Invalidation.Mutable(op)
  {
    (set d | d in Invalidation.Dirs(op) :: DirObj(d)) + (set d | d in Invalidation.Dirs(op) :: InoObj(d))
    + match op
      case OpCommit(dir, name, _, _) => BoundKey(s', dir, name)
      case OpRemove(dir, name, _) => BoundKey(seen, dir, name)
      case OpLink(_, _, target, _) => {InoObj(target)}
      case OpDetached(id, _) => {InoObj(id)}
      case OpSetAttr(id, _, _) => {InoObj(id)}
      case _ => {}
  }

  function BoundKey(s: NS, dir: InodeID, name: string): set<Obj> {
    if Slot(dir, name) in s.dentry then {InoObj(s.dentry[Slot(dir, name)])} else {}
  }

  /** Every handler's write is one the protocol allows: it rebinds names only in directories it bumps. */
  lemma HandlerCovers(seen: NS, s: NS, op: Op)
    requires Invalidation.Mutable(op) && Run(s, op).Ok?
    ensures Covers(HandlerKeys(seen, Run(s, op).value, op), s.dentry, Run(s, op).value.dentry)
  {
    var s' := Run(s, op).value;
    forall k | k in s.dentry.Keys + s'.dentry.Keys && (k in s.dentry && k in s'.dentry ==> s.dentry[k] != s'.dentry[k])
      ensures DirObj(k.dir) in HandlerKeys(seen, s', op)
    {
      Invalidation.ReboundIn(s, op, k);
    }
  }

  /**
   The inode is not bumped although the operation works on it: a rename moves or displaces it, or it loses the name to
   a removal whose lookup had not found it there.
   */
  predicate Untold(seen: NS, s: NS, op: Op, id: InodeID) {
    match op
    case OpRename(oldDir, oldName, newDir, newName, _) => InoObj(id) in BoundKey(s, oldDir, oldName) + BoundKey(s, newDir, newName)
    case OpRemove(dir, name, _) => InoObj(id) in BoundKey(s, dir, name) - BoundKey(seen, dir, name)
    case _ => false
  }

  /** A record some handler's write changed is one whose object it bumps, unless it is one of those. */
  lemma HandlerTold(seen: NS, s: NS, op: Op, id: InodeID)
    requires Invalidation.Mutable(op) && Histories.Inv(s) && Run(s, op).Ok? && Invalidation.Changed(s, Run(s, op).value, id)
    ensures InoObj(id) in HandlerKeys(seen, Run(s, op).value, op) || Untold(seen, s, op, id)
  {
    hide Histories.Inv, Run;
    Invalidation.ChangedAbout(s, op, id);
  }

  lemma HandlerUntold(seen: NS, s: NS, op: Op, id: InodeID)
    requires Invalidation.Mutable(op) && Histories.Inv(s) && Run(s, op).Ok? && Invalidation.Changed(s, Run(s, op).value, id)
    requires Untold(seen, s, op, id)
    ensures InoObj(id) !in HandlerKeys(seen, Run(s, op).value, op)
  {
    hide Histories.Inv, RemoveEntry, Rename;
    if op.OpRemove? {
      Transactions.RemoveDoes(s, op.dir, op.name, op.at);
    } else if Slot(op.oldDir, op.oldName) == Slot(op.newDir, op.newName) {
      Transactions.RenameNowhere(s, op.oldDir, op.oldName, op.at);
    } else {
      RenameUntold(seen, s, op);
    }
  }

  /**
   Of the records a handler's write changes it bumps all but the moved and the displaced one of a rename, and the one that
   loses its name to a removal, if that is not the one the removal's lookup had found: an Unlink or Rmdir bumps the inode it
   changes if and only if the name led to it in both transactions.
   */
  lemma HandlerTells(seen: NS, s: NS, op: Op, id: InodeID)
    requires Invalidation.Mutable(op) && Histories.Inv(s) && Run(s, op).Ok? && Invalidation.Changed(s, Run(s, op).value, id)
    ensures InoObj(id) in HandlerKeys(seen, Run(s, op).value, op) <==> !Untold(seen, s, op, id)
    ensures op.OpRemove? && Slot(op.dir, op.name) in s.dentry && id == s.dentry[Slot(op.dir, op.name)] ==>
              (InoObj(id) in HandlerKeys(seen, Run(s, op).value, op) <==> Slot(op.dir, op.name) in seen.dentry && seen.dentry[Slot(op.dir, op.name)] == id)
  {
    hide Histories.Inv, Run, HandlerKeys, Invalidation.Changed;
    HandlerTold(seen, s, op, id);
    if Untold(seen, s, op, id) {
      HandlerUntold(seen, s, op, id);
    }
  }

  /** A commit bumps the file it leaves under the name, whether it was there before or not. */
  lemma CommitTells(seen: NS, s: NS, op: Op)
    requires op.OpCommit? && Histories.Inv(s) && Run(s, op).Ok?
    ensures var s' := Run(s, op).value;
            Slot(op.dir, op.name) in s'.dentry && InoObj(s'.dentry[Slot(op.dir, op.name)]) in HandlerKeys(seen, s', op)
  {
    hide Histories.Inv, CommitFile;
    Transactions.CommitDoes(s, op.dir, op.name, op.rec, op.now);
  }

  /**
   It bumps exactly the directories it rebinds names in, by both objects, and the inodes the operation is about; a rename,
   though, only the directories.
   */
  lemma HandlerBumps(seen: NS, s': NS, op: Op, obj: Obj)
    requires Invalidation.Mutable(op)
    ensures obj in HandlerKeys(seen, s', op) <==>
              match obj
              case InoObj(id) => id in if op.OpRename? then Invalidation.Dirs(op) else Invalidation.About(seen, seen, s', op)
              case DirObj(d) => d in Invalidation.Dirs(op)
  {
  }

  /**
   The two inodes of a rename are never bumped. The moved one's record changes unless it has this change time already; the
   displaced one's, if it is another, unless it is a directory without links that has it too.
   */
  lemma RenameUntold(seen: NS, s: NS, op: Op)
    requires op.OpRename? && Histories.Inv(s) && TreeShape.Renamed(s, op.oldDir, op.oldName, op.newDir, op.newName, op.at, After(s, op))
    ensures var s', from, to := After(s, op), Slot(op.oldDir, op.oldName), Slot(op.newDir, op.newName);
            && from in s.dentry && InoObj(s.dentry[from]) !in HandlerKeys(seen, s', op)
            && (Invalidation.Changed(s, s', s.dentry[from]) <==> s.inode[s.dentry[from]].ctime != op.at)
            && (to in s.dentry ==> InoObj(s.dentry[to]) !in HandlerKeys(seen, s', op) && s.dentry[to] in s.inode)
            && (to in s.dentry && s.dentry[to] != s.dentry[from] ==>
                  && (Invalidation.Changed(s, s', s.dentry[to]) <==> s.inode[s.dentry[to]].nlink > 0 || s.inode[s.dentry[to]].ctime != op.at)
                  && (!s.inode[s.dentry[to]].isDir ==> s.inode[s.dentry[to]].nlink > 0))
  {
    hide Histories.Inv, Rename, HandlerKeys, Transactions.Reparented, TreeShape.Tree, Transactions.Released;
    var s', from, to := After(s, op), Slot(op.oldDir, op.oldName), Slot(op.newDir, op.newName);
    InvTree(s);
    RenamesBump(seen, s', op);
    TreeShape.RenameFacts(s, op.oldDir, op.oldName, op.newDir, op.newName, op.at, s');
    Transactions.RenameApart(s, from, to, s');
    Transactions.RenameDoes(s, op.oldDir, op.oldName, op.newDir, op.newName, op.at, s');
    if to in s.dentry && s.dentry[to] in s.inode && !s.inode[s.dentry[to]].isDir {
      Handlers.NamedCounts(s, to);
    }
  }

  // --- whose holders a posix handler recalls first ------------------------------------------------

  /** The inodes a handler of the posix class recalls before its transaction, as its lookup found them in `seen`. */
  function RecalledBy(seen: NS, op: Op): set<InodeID> {
    match op
    case OpCommit(dir, name, _, _) => Invalidation.At(seen, dir, name)
    case OpRemove(dir, name, _) => Invalidation.At(seen, dir, name)
    case OpRename(_, _, newDir, newName, _) => Invalidation.At(seen, newDir, newName)
    case OpDetached(id, _) => {id}
    case OpSetAttr(id, _, _) => {id}
    case _ => {}
  }

  /** The directories a handler works in, a link's target and the inode a rename moves are recalled by none. */
  predicate NeverRecalled(s: NS, op: Op, id: InodeID)
    requires Invalidation.Mutable(op)
  {
    || id in Invalidation.Dirs(op) || (op.OpLink? && id == op.target)
    || (op.OpRename? && id in Invalidation.At(s, op.oldDir, op.oldName) && id !in Invalidation.At(s, op.newDir, op.newName))
  }

  /**
   Who is recalled: for a commit, an unlink or a rmdir whatever the name leads to, for a rename whatever its new name leads
   to, for a write to an unlinked file and a change of attributes that inode; for a publish, a mkdir and a link nobody.
   */
  lemma RecalledAre(seen: NS, op: Op, id: InodeID)
    requires Invalidation.Mutable(op)
    ensures id in RecalledBy(seen, op) <==>
              if op.OpDetached? || op.OpSetAttr? then id == op.id
              else if op.OpRename? then Slot(op.newDir, op.newName) in seen.dentry && seen.dentry[Slot(op.newDir, op.newName)] == id
              else (op.OpCommit? || op.OpRemove?) && Slot(op.dir, op.name) in seen.dentry && seen.dentry[Slot(op.dir, op.name)] == id
  {
  }

  /** The directories an operation works in are not what its names lead to. */
  lemma ApartFromName(s: NS, k: Slot)
    requires Histories.Inv(s) && k in s.dentry
    ensures s.dentry[k] != k.dir
  {
    TreeShape.ParentNotWithin(s, k);
    TreeShape.WithinSelf(s.dentry, k.dir);
  }

  lemma NeverApart(s: NS, op: Op, id: InodeID)
    requires Invalidation.Mutable(op) && Histories.Inv(s) && Run(s, op).Ok? && Invalidation.Changed(s, Run(s, op).value, id)
    requires NeverRecalled(s, op, id)
    ensures id !in RecalledBy(s, op)
  {
    hide Histories.Inv, CommitFile, RemoveEntry, Rename, TreeShape.Tree;
    match op
    case OpCommit(dir, name, _, _) => if Slot(dir, name) in s.dentry { ApartFromName(s, Slot(dir, name)); }
    case OpRemove(dir, name, _) => if Slot(dir, name) in s.dentry { ApartFromName(s, Slot(dir, name)); }
    case OpRename(oldDir, oldName, newDir, newName, at) =>
      InvTree(s);
      var from, to := Slot(oldDir, oldName), Slot(newDir, newName);
      if from == to {
        Transactions.RenameNowhere(s, oldDir, oldName, at);
      } else {
        TreeShape.RenameFacts(s, oldDir, oldName, newDir, newName, at, Run(s, op).value);
        Transactions.RenameApart(s, from, to, Run(s, op).value);
      }
    case _ =>
  }

  /** The lookup found under the name what the transaction does. */
  predicate FoundAgain(seen: NS, s: NS, op: Op) {
    match op
    case OpCommit(dir, name, _, _) => Slot(dir, name) in s.dentry ==> Handlers.SameName(seen, s, Slot(dir, name))
    case OpRemove(dir, name, _) => Handlers.SameName(seen, s, Slot(dir, name))
    case OpRename(_, _, newDir, newName, _) => Slot(newDir, newName) in s.dentry ==> Handlers.SameName(seen, s, Slot(newDir, newName))
    case _ => true
  }

  lemma AboutRecalled(s: NS, op: Op, id: InodeID)
    requires Invalidation.Mutable(op) && Histories.Inv(s) && Run(s, op).Ok? && Invalidation.Changed(s, Run(s, op).value, id)
    ensures NeverRecalled(s, op, id) || id in RecalledBy(s, op)
  {
    hide Histories.Inv, Run;
    Invalidation.ChangedAbout(s, op, id);
    if op.OpCommit? && id !in Invalidation.Dirs(op) {
      CommitOverwrites(s, op, id);
    }
  }

  lemma CommitOverwrites(s: NS, op: Op, id: InodeID)
    requires op.OpCommit? && Histories.Inv(s) && Run(s, op).Ok? && Invalidation.Changed(s, Run(s, op).value, id) && id != op.dir
    ensures Slot(op.dir, op.name) in s.dentry && s.dentry[Slot(op.dir, op.name)] == id
  {
    hide Histories.Inv, CommitFile;
    Transactions.CommitDoes(s, op.dir, op.name, op.rec, op.now);
  }

  /**
   Of the records a posix handler changes, those it recalls at all have been recalled exactly if its lookup found under
   the name what its transaction does; the others never are.
   */
  lemma RecalledFirst(seen: NS, s: NS, op: Op, id: InodeID)
    requires Invalidation.Mutable(op) && Histories.Inv(s) && Run(s, op).Ok? && Invalidation.Changed(s, Run(s, op).value, id)
    ensures NeverRecalled(s, op, id) <==> id !in RecalledBy(s, op)
    ensures id in RecalledBy(s, op) ==> (id in RecalledBy(seen, op) <==> FoundAgain(seen, s, op))
  {
    hide Histories.Inv, Run, Invalidation.Changed, NeverRecalled;
    AboutRecalled(s, op, id);
    if NeverRecalled(s, op, id) {
      NeverApart(s, op, id);
    }
  }

  /** The name passes to another file between the lookup and the commit: one file is recalled, the other is overwritten. */
  lemma CommitRecallsOther(size: nat)
    requires size > 0
    ensures W.Reachable(W.REUSED) && RemoveEntry(W.NAMED, ROOT, "a", 0) == Ok(W.UNLINKED) && CommitFile(W.UNLINKED, ROOT, "a", W.FILE, 0) == Ok(W.REUSED)
    ensures var op := OpCommit(ROOT, "a", W.FILE.(size := size), 0); var r := Run(W.REUSED, op);
            r.Ok? && Invalidation.Changed(W.REUSED, r.value, 3) && RecalledBy(W.NAMED, op) == {2}
  {
    W.UnlinkedIs();
    W.ReusedIs();
    W.ReusedReachable();
  }

  lemma RenamesBump(seen: NS, s': NS, op: Op)
    requires op.OpRename?
    ensures forall id :: InoObj(id) in HandlerKeys(seen, s', op) <==> id == op.oldDir || id == op.newDir
  {
  }

  lemma InvTree(s: NS)
    requires Histories.Inv(s)
    ensures TreeShape.Tree(s)
  {
  }

  // --- runs ------------------------------------------------------------------------------------

  const FILE := InoObj(2)
  const FILE_SUB := Sub(0, FILE)
  const DIR_SUB := Sub(0, DirObj(1))

  // --- a Lookup brings back a recalled record ------------------------------------------------------

  /** One directory holding one name of one file, one client, and its Lookup of that name. */
  function Scene(ttl: Time, rec: InodeRecord, net: Net, client: Client, phase: Phase, acks: set<Ack>): World {
    World(0, ttl, map[Slot(1, "a") := 2], map[2 := rec], net, map[0 := client],
          map[0 := LookupFlight(0, 1, "a", 0, phase)], map[], 1, acks, {})
  }

  /** The client after it has dropped the file's record `n` times. */
  function Dropped(n: nat): Client {
    Client(map[], map[], map[], map[FILE := n])
  }

  const SUBS := {DIR_SUB, FILE_SUB}
  const DEBT := Debt(0, FILE, 7)
  const ACKED := {Ack(0, FILE, 7, 1)}

  function Idle(queue: seq<Event>): Net {
    Net(SUBS, map[0 := queue], map[], {})
  }

  function Busy(queue: seq<Event>, job: Job): Net {
    Net(SUBS, map[0 := queue], map[0 := job], {})
  }

  /** Before anything is pushed: the authority, one Lookup on its way, the registrations made so far. */
  function Early(ttl: Time, rec: InodeRecord, subs: set<Sub>, lookups: map<nat, LookupFlight>, issued: nat): World {
    World(0, ttl, map[Slot(1, "a") := 2], map[2 := rec], Net(subs, map[], map[], {}), map[], lookups, map[], issued, {}, {})
  }

  function Asked(phase: Phase): map<nat, LookupFlight> {
    map[0 := LookupFlight(0, 1, "a", 0, phase)]
  }

  /** The request, up to the record having been read at the authority. */
  lemma RequestSteps(ttl: Time, rec: InodeRecord)
    ensures Step(Early(ttl, rec, {}, map[], 0), Ask(0, 1, "a"), Early(ttl, rec, {}, Asked(Sent), 1))
    ensures Step(Early(ttl, rec, {}, Asked(Sent), 1), GrantDir(0, true), Early(ttl, rec, {DIR_SUB}, Asked(Granted), 1))
  {
  }

  lemma ReadSteps(ttl: Time, rec: InodeRecord)
    ensures Step(Early(ttl, rec, {DIR_SUB}, Asked(Granted), 1), ReadName(0), Early(ttl, rec, {DIR_SUB}, Asked(Named(Some(2))), 1))
    ensures Step(Early(ttl, rec, {DIR_SUB}, Asked(Named(Some(2))), 1), ReadRecord(0), Early(ttl, rec, {DIR_SUB}, Asked(Fetched(2, rec)), 1))
    ensures Step(Early(ttl, rec, {DIR_SUB}, Asked(Fetched(2, rec)), 1), GrantRecord(0, true), Early(ttl, rec, SUBS, Asked(Recorded(2, rec)), 1))
  {
  }

  lemma RecallSteps(ttl: Time, rec: InodeRecord)
    ensures var w := Early(ttl, rec, SUBS, Asked(Recorded(2, rec)), 1);
            && Step(w, PushRecall(FILE_SUB, 7, true), w.(net := Idle([Recalled(FILE, 7)])))
            && Step(w.(net := Idle([Recalled(FILE, 7)])), Deliver(0), Scene(ttl, rec, Idle([]), Dropped(1), Recorded(2, rec), {}).(debts := {DEBT}))
  {
    assert Enqueue(Net(SUBS, map[], map[], {}), FILE_SUB, Recalled(FILE, 7), true) == Idle([Recalled(FILE, 7)]) by {
      assert [] + [Recalled(FILE, 7)] == [Recalled(FILE, 7)];
    }
    assert [Recalled(FILE, 7)][1..] == [];
  }

  lemma AckStep(ttl: Time, rec: InodeRecord)
    ensures var w := Scene(ttl, rec, Idle([]), Dropped(1), Recorded(2, rec), {}).(debts := {DEBT});
            Step(w, SendAck(DEBT, true), Scene(ttl, rec, Idle([]), Dropped(1), Recorded(2, rec), ACKED))
  {
    assert {DEBT} - {DEBT} == {} && {} + ACKED == ACKED;
  }

  lemma WriteSteps(ttl: Time, before: InodeRecord, after: InodeRecord)
    ensures Step(Scene(ttl, before, Idle([]), Dropped(1), Recorded(2, before), ACKED),
                 Mutate(0, {FILE}, map[Slot(1, "a") := 2], map[2 := after]),
                 Scene(ttl, after, Busy([], Job({FILE}, {})), Dropped(1), Recorded(2, before), ACKED))
    ensures Step(Scene(ttl, after, Busy([], Job({FILE}, {})), Dropped(1), Recorded(2, before), ACKED), Collect(0, FILE),
                 Scene(ttl, after, Busy([], Job({}, {FILE_SUB})), Dropped(1), Recorded(2, before), ACKED))
  {
    assert (set s | s in SUBS && s.obj == FILE) == {FILE_SUB};
    assert Gathered(Busy([], Job({FILE}, {})), 0, FILE) == Busy([], Job({}, {FILE_SUB})) by {
      assert {FILE} - {FILE} == {} && {} + {FILE_SUB} == {FILE_SUB};
    }
  }

  lemma PushSteps(ttl: Time, before: InodeRecord, after: InodeRecord)
    ensures Step(Scene(ttl, after, Busy([], Job({}, {FILE_SUB})), Dropped(1), Recorded(2, before), ACKED), Push(0, FILE_SUB, true),
                 Scene(ttl, after, Busy([Invalidated(FILE)], Job({}, {})), Dropped(1), Recorded(2, before), ACKED))
  {
    assert Fired(Busy([], Job({}, {FILE_SUB})), 0, FILE_SUB) == Busy([], Job({}, {})) by {
      assert {FILE_SUB} - {FILE_SUB} == {};
    }
    assert Enqueue(Busy([], Job({}, {})), FILE_SUB, Invalidated(FILE), true) == Busy([Invalidated(FILE)], Job({}, {})) by {
      assert [] + [Invalidated(FILE)] == [Invalidated(FILE)];
    }
  }

  lemma HandledSteps(ttl: Time, before: InodeRecord, after: InodeRecord)
    ensures Step(Scene(ttl, after, Busy([Invalidated(FILE)], Job({}, {})), Dropped(1), Recorded(2, before), ACKED), Deliver(0),
                 Scene(ttl, after, Busy([], Job({}, {})), Dropped(2), Recorded(2, before), ACKED))
  {
    assert Taken(Busy([Invalidated(FILE)], Job({}, {})), 0) == Busy([], Job({}, {})) by {
      assert [Invalidated(FILE)][1..] == [];
    }
    assert Invalidate(Dropped(1), FILE) == Dropped(2);
  }

  lemma ResponseSteps(ttl: Time, before: InodeRecord, after: InodeRecord)
    ensures Step(Scene(ttl, after, Busy([], Job({}, {})), Dropped(2), Recorded(2, before), ACKED), ReadEpoch(0),
                 Scene(ttl, after, Busy([], Job({}, {})), Dropped(2), Timed(2, before, 2), ACKED))
    ensures Step(Scene(ttl, after, Busy([], Job({}, {})), Dropped(2), Timed(2, before, 2), ACKED), KeepRecord(0),
                 Scene(ttl, after, Busy([], Job({}, {})), Store(Dropped(2), FILE, before, Lease(0, ttl), 2, 0), Ready(Some(2)), ACKED))
  {
  }

  ghost predicate Reached(start: World, acts: seq<Action>, w: World) {
    exists run: seq<World> :: IsRun(run, acts) && run[0] == start && run[|acts|] == w
  }

  lemma ReachStart(w: World)
    ensures Reached(w, [], w)
  {
    assert IsRun([w], []);
  }

  lemma ReachNext(start: World, acts: seq<Action>, w: World, a: Action, w': World)
    requires Reached(start, acts, w) && Step(w, a, w')
    ensures Reached(start, acts + [a], w')
  {
    hide Step;
    var run: seq<World> :| IsRun(run, acts) && run[0] == start && run[|acts|] == w;
    var run', acts' := run + [w'], acts + [a];
    forall i | 0 <= i < |acts'| ensures Step(run'[i], acts'[i], run'[i + 1]) {
      if i < |acts| {
        assert Step(run[i], acts[i], run[i + 1]);
      }
    }
    assert IsRun(run', acts');
  }

  lemma ReachTwo(start: World, acts: seq<Action>, w: World, a: Action, w1: World, b: Action, w2: World) returns (acts': seq<Action>)
    requires Reached(start, acts, w) && Step(w, a, w1) && Step(w1, b, w2)
    ensures Reached(start, acts', w2) && acts' == acts + [a] + [b]
  {
    ReachNext(start, acts, w, a, w1);
    ReachNext(start, acts + [a], w1, b, w2);
    acts' := acts + [a] + [b];
  }

  /**
   Lookup reads the inode's epoch only when its response has arrived, so the record it carries is stored although the
   client has meanwhile acknowledged a recall of that inode and handled the push of the write that followed: the
   client answers the old record with nothing on its way to correct it.
   */
  lemma LookupRestoresRecalled(ttl: Time, before: InodeRecord, after: InodeRecord) returns (acts: seq<Action>, w: World)
    requires ttl > 0
    ensures Initial(Early(ttl, before, {}, map[], 0)) && Reached(Early(ttl, before, {}, map[], 0), acts, w)
    ensures Ack(0, FILE, 7, 1) in w.acks && w.inode == map[2 := after] && w.net.lost == {} && !Coming(w.net, FILE_SUB)
    ensures CachedInode(ClientOf(w, 0), 2, w.now) == Some(before)
  {
    hide Step, Reached;
    var start := Early(ttl, before, {}, map[], 0);
    ReachStart(start);
    RequestSteps(ttl, before);
    acts := ReachTwo(start, [], start, Ask(0, 1, "a"), Early(ttl, before, {}, Asked(Sent), 1),
                     GrantDir(0, true), Early(ttl, before, {DIR_SUB}, Asked(Granted), 1));
    ReadSteps(ttl, before);
    var read := Early(ttl, before, SUBS, Asked(Recorded(2, before)), 1);
    acts := ReachTwo(start, acts, Early(ttl, before, {DIR_SUB}, Asked(Granted), 1), ReadName(0),
                     Early(ttl, before, {DIR_SUB}, Asked(Named(Some(2))), 1), ReadRecord(0), Early(ttl, before, {DIR_SUB}, Asked(Fetched(2, before)), 1));
    ReachNext(start, acts, Early(ttl, before, {DIR_SUB}, Asked(Fetched(2, before)), 1), GrantRecord(0, true), read);
    acts := acts + [GrantRecord(0, true)];
    RecallSteps(ttl, before);
    var dropped := Scene(ttl, before, Idle([]), Dropped(1), Recorded(2, before), {}).(debts := {DEBT});
    acts := ReachTwo(start, acts, read, PushRecall(FILE_SUB, 7, true), read.(net := Idle([Recalled(FILE, 7)])), Deliver(0), dropped);
    AckStep(ttl, before);
    var recalled := Scene(ttl, before, Idle([]), Dropped(1), Recorded(2, before), ACKED);
    ReachNext(start, acts, dropped, SendAck(DEBT, true), recalled);
    acts := acts + [SendAck(DEBT, true)];
    WriteSteps(ttl, before, after);
    var collected := Scene(ttl, after, Busy([], Job({}, {FILE_SUB})), Dropped(1), Recorded(2, before), ACKED);
    acts := ReachTwo(start, acts, recalled, Mutate(0, {FILE}, map[Slot(1, "a") := 2], map[2 := after]),
                     Scene(ttl, after, Busy([], Job({FILE}, {})), Dropped(1), Recorded(2, before), ACKED), Collect(0, FILE), collected);
    PushSteps(ttl, before, after);
    HandledSteps(ttl, before, after);
    var handled := Scene(ttl, after, Busy([], Job({}, {})), Dropped(2), Recorded(2, before), ACKED);
    acts := ReachTwo(start, acts, collected, Push(0, FILE_SUB, true),
                     Scene(ttl, after, Busy([Invalidated(FILE)], Job({}, {})), Dropped(1), Recorded(2, before), ACKED), Deliver(0), handled);
    ResponseSteps(ttl, before, after);
    w := Scene(ttl, after, Busy([], Job({}, {})), Store(Dropped(2), FILE, before, Lease(0, ttl), 2, 0), Ready(Some(2)), ACKED);
    acts := ReachTwo(start, acts, handled, ReadEpoch(0), Scene(ttl, after, Busy([], Job({}, {})), Dropped(2), Timed(2, before, 2), ACKED),
                     KeepRecord(0), w);
  }
}
