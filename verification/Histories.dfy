/** What every history of transactions keeps, and exactly where a transaction would break it. */
module Histories {
  import opened Base
  import opened Namespace
  import opened TreeShape
  import opened Accounting

  datatype Op =
    | OpPublish(dir: InodeID, name: string, rec: InodeRecord, now: Time)
    | OpCommit(dir: InodeID, name: string, rec: InodeRecord, now: Time)
    | OpMkdir(dir: InodeID, name: string, rec: InodeRecord, now: Time)
    | OpLink(dir: InodeID, name: string, target: InodeID, now: Time)
    | OpRemove(dir: InodeID, name: string, at: Time)
    | OpRename(oldDir: InodeID, oldName: string, newDir: InodeID, newName: string, at: Time)
    | OpDetached(id: InodeID, rec: InodeRecord)
    | OpSetAttr(id: InodeID, mut: AttrMutation, now: Time)
    | OpLimits(bytesLimit: nat, inodesLimit: nat)
    | OpReclaim(id: InodeID)
    | OpForget(grave: Grave)

  ghost function Run(s: NS, op: Op): Result<NS, Error> {
    match op
    case OpPublish(dir, name, rec, now) => PublishFile(s, dir, name, rec, now)
    case OpCommit(dir, name, rec, now) => CommitFile(s, dir, name, rec, now)
    case OpMkdir(dir, name, rec, now) => CommitMkdir(s, dir, name, rec, now)
    case OpLink(dir, name, target, now) => Link(s, dir, name, target, now)
    case OpRemove(dir, name, at) => RemoveEntry(s, dir, name, at)
    case OpRename(oldDir, oldName, newDir, newName, at) => Rename(s, oldDir, oldName, newDir, newName, at)
    case OpDetached(id, rec) => UpdateInodeContent(s, id, rec)
    case OpSetAttr(id, mut, now) => SetAttr(s, id, mut, now)
    case OpLimits(b, i) => Ok(SetQuotaLimits(s, b, i))
    case OpReclaim(id) => Ok(DeleteInode(s, id))
    case OpForget(g) => Ok(RemoveGrave(s, g))
  }

  /** A refused transaction leaves the state as it was. */
  ghost function After(s: NS, op: Op): NS {
    match Run(s, op) case Ok(s') => s' case Err(_) => s
  }

  ghost function AfterAll(s: NS, ops: seq<Op>): NS
    decreases |ops|
  {
    if ops == [] then s else AfterAll(After(s, ops[0]), ops[1..])
  }

  ghost predicate Inv(s: NS) {
    Tree(s) && Balanced(BookOf(s))
  }

  /** A record as the callers of the create paths build it. */
  predicate FileRecord(rec: InodeRecord) {
    !rec.isDir && rec.nlink == 1
  }

  predicate DirRecord(rec: InodeRecord) {
    rec.isDir && rec.size == 0
  }

  ghost predicate IsGraved(s: NS, id: InodeID) {
    Graved(s.graves, id)
  }

  /** What the callers guarantee. Each clause about the state is shown below to be needed where the call does something. */
  ghost predicate Allowed(s: NS, op: Op) {
    match op
    case OpPublish(dir, _, rec, _) => FileRecord(rec) && LiveDir(s, dir)
    case OpCommit(dir, _, rec, _) => FileRecord(rec) && LiveDir(s, dir)
    case OpMkdir(dir, _, rec, _) => DirRecord(rec) && LiveDir(s, dir)
    case OpLink(dir, _, target, _) => LiveDir(s, dir) && !IsGraved(s, target)
    case OpRemove(dir, name, _) => Slot(dir, name) in s.dentry ==> !HasEntries(s.dentry, s.dentry[Slot(dir, name)])
    case OpRename(oldDir, oldName, newDir, newName, _) =>
      LiveDir(s, newDir) && !SameInode(s, Slot(oldDir, oldName), Slot(newDir, newName))
    case OpDetached(id, rec) => IsGraved(s, id)
    case OpSetAttr(_, _, _) => true
    case OpLimits(_, _) => true
    case OpReclaim(id) => IsGraved(s, id)
    case OpForget(g) => g.id !in s.inode
  }

  /** Two different names of one inode. */
  predicate SameInode(s: NS, from: Slot, to: Slot) {
    from != to && from in s.dentry && to in s.dentry && s.dentry[from] == s.dentry[to]
  }

  ghost predicate AllAllowed(s: NS, ops: seq<Op>)
    decreases |ops|
  {
    ops == [] || (Allowed(s, ops[0]) && AllAllowed(After(s, ops[0]), ops[1..]))
  }

  // --- the accounting of each transaction ---------------------------------------

  lemma VitalAt(s: NS, id: InodeID)
    ensures id in s.inode <==> id in VitalsOf(s.inode)
    ensures id in s.inode ==> VitalsOf(s.inode)[id] == VitalOf(s.inode[id])
  {
  }

  /** Vitals that agree on directory-ness give SameKinds. */
  lemma KindsFromVitals(s: NS, s': NS)
    requires forall id :: id in VitalsOf(s.inode) ==>
                            id in VitalsOf(s'.inode) && VitalsOf(s'.inode)[id].isDir == VitalsOf(s.inode)[id].isDir
    ensures SameKinds(s, s')
  {
    forall id | id in s.inode ensures id in s'.inode && s'.inode[id].isDir == s.inode[id].isDir {
      VitalAt(s, id);
      VitalAt(s', id);
    }
  }

  lemma SetDentryBooks(s: NS, dir: InodeID, name: string, child: InodeID, now: Time)
    requires SetDentry(s, dir, name, child, now).Ok?
    ensures BookOf(SetDentry(s, dir, name, child, now).value) == BookOf(s).(dentry := s.dentry[Slot(dir, name) := child])
  {
    TouchDirRetimes(s, dir, now);
  }

  lemma PublishBooks(s: NS, dir: InodeID, name: string, rec: InodeRecord, now: Time)
    requires FileRecord(rec) && PublishFile(s, dir, name, rec, now).Ok?
    ensures BookOf(PublishFile(s, dir, name, rec, now).value) == Create(BookOf(s), Slot(dir, name), false, rec.size)
  {
    var id := s.next + 1;
    var q := ApplyQuota(s.quota, rec.size, 1).value;
    PutVital(s.inode, id, rec);
    SetDentryBooks(PutInode(s, id, rec).(quota := q, next := id), dir, name, id, now);
  }

  lemma MkdirBooks(s: NS, dir: InodeID, name: string, rec: InodeRecord, now: Time)
    requires DirRecord(rec) && CommitMkdir(s, dir, name, rec, now).Ok?
    ensures BookOf(CommitMkdir(s, dir, name, rec, now).value) == Create(BookOf(s), Slot(dir, name), true, 0)
  {
    hide SetDentry, AdjustDirLinks;
    var id := s.next + 1;
    var q := ApplyQuota(s.quota, 0, 1).value;
    PutVital(s.inode, id, rec);
    var s0 := PutInode(s, id, rec).(quota := q, next := id);
    SetDentryBooks(s0, dir, name, id, now);
    AdjustDirLinksRetimes(SetDentry(s0, dir, name, id, now).value, dir, 1);
  }

  lemma CommitBooks(s: NS, dir: InodeID, name: string, rec: InodeRecord, now: Time)
    requires FileRecord(rec) && CommitFile(s, dir, name, rec, now).Ok?
    ensures var s', k := CommitFile(s, dir, name, rec, now).value, Slot(dir, name);
            if k in s.dentry then
              && s.dentry[k] in s.inode && !s.inode[s.dentry[k]].isDir
              && (VitalAt(s, s.dentry[k]); BookOf(s') == Resize(BookOf(s), s.dentry[k], rec.size))
            else BookOf(s') == Create(BookOf(s), k, false, rec.size)
  {
    var k := Slot(dir, name);
    if k in s.dentry {
      var id := s.dentry[k];
      VitalAt(s, id);
      PutVital(s.inode, id, Overwritten(s.inode[id], rec, now));
    } else {
      var id := s.next + 1;
      var q := ApplyQuota(s.quota, rec.size, 1).value;
      var rec' := if rec.atime == 0 then rec.(atime := rec.mtime) else rec;
      PutVital(s.inode, id, rec');
      SetDentryBooks(PutInode(s, id, rec').(quota := q, next := id), dir, name, id, now);
    }
  }

  lemma LinkBooks(s: NS, dir: InodeID, name: string, target: InodeID, now: Time)
    requires Link(s, dir, name, target, now).Ok? && s.inode[target].nlink > 0
    ensures target in VitalsOf(s.inode)
    ensures BookOf(Link(s, dir, name, target, now).value) == Bind(BookOf(s), Slot(dir, name), target)
  {
    var rec := s.inode[target];
    VitalAt(s, target);
    PutVital(s.inode, target, rec.(nlink := rec.nlink + 1, ctime := now));
    SetDentryBooks(PutInode(s, target, rec.(nlink := rec.nlink + 1, ctime := now)), dir, name, target, now);
  }

  lemma DropLinkBooks(s: NS, id: InodeID, rec: InodeRecord, at: Time)
    requires id in s.inode && VitalOf(s.inode[id]) == VitalOf(rec)
    ensures id in VitalsOf(s.inode) && DropLink(s, id, rec, at).Ok?
    ensures BookOf(DropLink(s, id, rec, at).value) == Release(BookOf(s), id, at)
  {
    VitalAt(s, id);
    PutVital(s.inode, id, rec.(nlink := 0, ctime := at));
    if rec.nlink > 1 {
      PutVital(s.inode, id, rec.(nlink := rec.nlink - 1, ctime := at));
    }
  }

  lemma RemoveBooks(s: NS, dir: InodeID, name: string, at: Time)
    requires RemoveEntry(s, dir, name, at).Ok?
    ensures var k := Slot(dir, name); k in s.dentry && s.dentry[k] in VitalsOf(s.inode)
    ensures BookOf(RemoveEntry(s, dir, name, at).value) == Unbind(BookOf(s), Slot(dir, name), at)
  {
    var k := Slot(dir, name);
    var id := s.dentry[k];
    var s0 := s.(dentry := s.dentry - {k});
    TouchDirRetimes(s0, dir, at);
    var s1 := TouchDir(s0, dir, at).value;
    if s.inode[id].isDir {
      AdjustDirLinksRetimes(s1, dir, -1);
    }
    var s2 := if s.inode[id].isDir then AdjustDirLinks(s1, dir, -1).value else s1;
    VitalAt(s, id);
    VitalAt(s2, id);
    DropLinkBooks(s2, id, s.inode[id], at);
  }

  /** Displacing a target is releasing one reference to it, the dentry still in place. */
  lemma DisplaceBooks(s: NS, src: InodeRecord, newDir: InodeID, newName: string, at: Time)
    requires Displace(s, src, newDir, newName, at).Ok? && Slot(newDir, newName) in s.dentry
    ensures s.dentry[Slot(newDir, newName)] in VitalsOf(s.inode)
    ensures BookOf(Displace(s, src, newDir, newName, at).value) == Release(BookOf(s), s.dentry[Slot(newDir, newName)], at)
  {
    var dst := s.dentry[Slot(newDir, newName)];
    DropLinkBooks(s, dst, s.inode[dst], at);
  }

  /** The two halves of a rename, and the record carried from one to the other. */
  ghost predicate RenameSteps(s: NS, from: Slot, to: Slot, at: Time, s1: NS, s': NS) {
    && from != to && from in s.dentry && s.dentry[from] in s.inode
    && Displace(s, s.inode[s.dentry[from]], to.dir, to.name, at) == Ok(s1)
    && MoveBinding(s1, s.dentry[from], s.inode[s.dentry[from]], from, to, at) == Ok(s')
  }

  lemma RenameInSteps(s: NS, oldDir: InodeID, oldName: string, newDir: InodeID, newName: string, at: Time, s': NS)
    returns (s1: NS)
    requires Renamed(s, oldDir, oldName, newDir, newName, at, s')
    ensures RenameSteps(s, Slot(oldDir, oldName), Slot(newDir, newName), at, s1, s')
  {
    s1 := Displace(s, s.inode[s.dentry[Slot(oldDir, oldName)]], newDir, newName, at).value;
  }

  lemma StepsBooks(s: NS, from: Slot, to: Slot, at: Time, s1: NS, s': NS)
    requires RenameSteps(s, from, to, at, s1, s') && !SameInode(s, from, to)
    ensures if to in s.dentry then
              && s.dentry[to] in VitalsOf(s.inode)
              && BookOf(s') == Move(Unbind(BookOf(s), to, at), from, to)
            else BookOf(s') == Move(BookOf(s), from, to)
  {
    hide MoveBinding;
    var src := s.dentry[from];
    MoveBindingShape(s1, src, s.inode[src], from, to, at);
    VitalAt(s, src);
    if to in s.dentry {
      DisplaceBooks(s, s.inode[src], to.dir, to.name, at);
      assert (s.dentry - {to} - {from})[to := src] == (s.dentry - {from})[to := src];
    }
    assert VitalsOf(s1.inode)[src := VitalOf(s.inode[src])] == VitalsOf(s1.inode);
  }

  // --- every allowed transaction keeps the invariant ----------------------------

  lemma CreateKeepsTree(s: NS, s': NS, k: Slot, isDir: bool, size: nat)
    requires Tree(s) && IsDir(s, k.dir) && LiveDir(s, k.dir) && k !in s.dentry
    requires BookOf(s') == Create(BookOf(s), k, isDir, size)
    requires s.next + 1 !in s.inode && !Named(s.dentry, s.next + 1) && s.next >= ROOT
    ensures Tree(s')
  {
    var id := s.next + 1;
    VitalAt(s', id);
    assert SameKinds(s, s') by {
      VitalAt(s, id);
      KindsFromVitals(s, s');
    }
    FilesHoldNothing(s, id);
    TreeAddName(s, s', k, id);
  }

  lemma CreateKeepsInv(s: NS, s': NS, k: Slot, isDir: bool, size: nat)
    requires Inv(s) && IsDir(s, k.dir) && LiveDir(s, k.dir) && k !in s.dentry
    requires BookOf(s') == Create(BookOf(s), k, isDir, size)
    ensures Inv(s')
  {
    hide Tree, Balanced, Create;
    CreateBalanced(BookOf(s), k, isDir, size);
    FreshInode(s);
    CreateKeepsTree(s, s', k, isDir, size);
  }

  lemma FreshInode(s: NS)
    requires Balanced(BookOf(s))
    ensures s.next + 1 !in s.inode && !Named(s.dentry, s.next + 1) && s.next >= ROOT
  {
    CreateFreshHasNoNames(BookOf(s));
    VitalAt(s, s.next + 1);
  }

  lemma PublishKeepsInv(s: NS, op: Op)
    requires op.OpPublish? && Inv(s) && Allowed(s, op) && Run(s, op).Ok?
    ensures Inv(After(s, op))
  {
    PublishBooks(s, op.dir, op.name, op.rec, op.now);
    CreateKeepsInv(s, After(s, op), Slot(op.dir, op.name), false, op.rec.size);
  }

  lemma MkdirKeepsInv(s: NS, op: Op)
    requires op.OpMkdir? && Inv(s) && Allowed(s, op) && Run(s, op).Ok?
    ensures Inv(After(s, op))
  {
    MkdirBooks(s, op.dir, op.name, op.rec, op.now);
    CreateKeepsInv(s, After(s, op), Slot(op.dir, op.name), true, 0);
  }

  lemma CommitKeepsInv(s: NS, op: Op)
    requires op.OpCommit? && Inv(s) && Allowed(s, op) && Run(s, op).Ok?
    ensures Inv(After(s, op))
  {
    hide Tree, Balanced;
    CommitBooks(s, op.dir, op.name, op.rec, op.now);
    var k := Slot(op.dir, op.name);
    if k in s.dentry {
      VitalAt(s, s.dentry[k]);
      ResizeBalanced(BookOf(s), s.dentry[k], op.rec.size);
      KindsFromVitals(s, After(s, op));
      TreeSameNames(s, After(s, op));
    } else {
      CreateKeepsInv(s, After(s, op), k, false, op.rec.size);
    }
  }

  /** A file that is not in the graveyard has a name and a positive count. */
  lemma UngravedIsNamed(s: NS, id: InodeID)
    requires Inv(s) && id in s.inode && !s.inode[id].isDir && !IsGraved(s, id)
    ensures Named(s.dentry, id) && s.inode[id].nlink > 0
  {
    VitalAt(s, id);
    var k :| k in s.dentry && s.dentry[k] == id;
    assert k in Names(s.dentry, id);
  }

  lemma BindKeepsTree(s: NS, s': NS, k: Slot, id: InodeID)
    requires Tree(s) && IsDir(s, k.dir) && LiveDir(s, k.dir) && k !in s.dentry
    requires id in s.inode && id != ROOT && !IsDir(s, id) && id in VitalsOf(s.inode)
    requires BookOf(s') == Bind(BookOf(s), k, id)
    ensures Tree(s')
  {
    KindsFromVitals(s, s');
    TreeAddName(s, s', k, id);
  }

  lemma LinkKeepsInv(s: NS, op: Op)
    requires op.OpLink? && Inv(s) && Allowed(s, op) && Run(s, op).Ok?
    ensures Inv(After(s, op))
  {
    UngravedIsNamed(s, op.target);
    VitalAt(s, op.target);
    LinkBooks(s, op.dir, op.name, op.target, op.now);
    BindBalanced(BookOf(s), Slot(op.dir, op.name), op.target);
    BindKeepsTree(s, After(s, op), Slot(op.dir, op.name), op.target);
  }

  lemma UnbindKeepsTree(s: NS, s': NS, k: Slot, at: Time)
    requires Tree(s) && k in s.dentry && !HasEntries(s.dentry, s.dentry[k]) && s.dentry[k] in VitalsOf(s.inode)
    requires BookOf(s') == Unbind(BookOf(s), k, at)
    ensures Tree(s')
  {
    KindsFromVitals(s, s');
    TreeDropName(s, s', k);
  }

  lemma RemoveKeepsInv(s: NS, op: Op)
    requires op.OpRemove? && Inv(s) && Allowed(s, op) && Run(s, op).Ok?
    ensures Inv(After(s, op))
  {
    RemoveBooks(s, op.dir, op.name, op.at);
    UnbindBalanced(BookOf(s), Slot(op.dir, op.name), op.at);
    UnbindKeepsTree(s, After(s, op), Slot(op.dir, op.name), op.at);
  }

  lemma RenameKeepsInv(s: NS, op: Op)
    requires op.OpRename? && Inv(s) && Allowed(s, op) && Run(s, op).Ok?
    ensures Inv(After(s, op))
  {
    var from, to := Slot(op.oldDir, op.oldName), Slot(op.newDir, op.newName);
    if from != to {
      var s' := After(s, op);
      RenameKeepsTree(s, op.oldDir, op.oldName, op.newDir, op.newName, op.at, s');
      var s1 := RenameInSteps(s, op.oldDir, op.oldName, op.newDir, op.newName, op.at, s');
      StepsBooks(s, from, to, op.at, s1, s');
      if to in s.dentry {
        UnbindBalanced(BookOf(s), to, op.at);
        MoveBalanced(Unbind(BookOf(s), to, op.at), from, to);
      } else {
        MoveBalanced(BookOf(s), from, to);
      }
    }
  }

  lemma PutKeepsInv(s: NS, id: InodeID, rec: InodeRecord)
    requires Inv(s) && id in s.inode && VitalOf(rec) == VitalOf(s.inode[id])
    ensures Inv(PutInode(s, id, rec))
  {
    PutRetimes(s, id, rec);
    KindsFromVitals(s, PutInode(s, id, rec));
    TreeSameNames(s, PutInode(s, id, rec));
  }

  /** The books after a detached write. */
  lemma DetachedBooks(s: NS, id: InodeID, rec: InodeRecord)
    requires id in s.inode
    ensures id in VitalsOf(s.inode)
    ensures BookOf(UpdateInodeContent(s, id, rec).value)
            == BookOf(s).(vitals := VitalsOf(s.inode)[id := VitalsOf(s.inode)[id].(size := rec.size)])
  {
    VitalAt(s, id);
    PutVital(s.inode, id, UpdateInodeContent(s, id, rec).value.inode[id]);
  }

  lemma DetachedKeepsTree(s: NS, id: InodeID, rec: InodeRecord)
    requires Tree(s) && id in s.inode
    ensures Tree(UpdateInodeContent(s, id, rec).value)
  {
    DetachedBooks(s, id, rec);
    KindsFromVitals(s, UpdateInodeContent(s, id, rec).value);
    TreeSameNames(s, UpdateInodeContent(s, id, rec).value);
  }

  lemma DetachedKeepsInv(s: NS, op: Op)
    requires op.OpDetached? && Inv(s) && Allowed(s, op) && Run(s, op).Ok?
    ensures Inv(After(s, op))
  {
    DetachedBooks(s, op.id, op.rec);
    DetachedKeepsTree(s, op.id, op.rec);
    DetachedBalanced(BookOf(s), op.id, op.rec.size);
  }

  lemma DropVital(inode: map<InodeID, InodeRecord>, id: InodeID)
    ensures VitalsOf(inode - {id}) == VitalsOf(inode) - {id}
  {
    assert VitalsOf(inode - {id}).Keys == (VitalsOf(inode) - {id}).Keys;
  }

  /** A swept inode has no name and holds none, so nothing dangles when its record goes. */
  lemma ReclaimKeepsTree(s: NS, id: InodeID)
    requires Tree(s) && !LiveDir(s, id)
    ensures Tree(DeleteInode(s, id))
  {
    var s' := DeleteInode(s, id);
    var rank :| Ranked(s, rank);
    forall k | k in s'.dentry ensures Anchored(s', k) {
      assert Anchored(s, k);
    }
    assert Ranked(s', rank) && OneParent(s');
  }

  lemma ReclaimKeepsInv(s: NS, op: Op)
    requires op.OpReclaim? && Inv(s) && Allowed(s, op)
    ensures Inv(After(s, op))
  {
    if op.id in s.inode {
      DropVital(s.inode, op.id);
      VitalAt(s, op.id);
      ReclaimBalanced(BookOf(s), op.id);
      ReclaimKeepsTree(s, op.id);
    } else {
      assert s.inode - {op.id} == s.inode;
    }
  }

  lemma ForgetKeepsInv(s: NS, op: Op)
    requires op.OpForget? && Inv(s) && Allowed(s, op)
    ensures Inv(After(s, op))
  {
    TreeSameNames(s, After(s, op));
    VitalAt(s, op.grave.id);
    ForgetBalanced(BookOf(s), op.grave);
  }

  lemma LimitsKeepInv(s: NS, bytesLimit: nat, inodesLimit: nat)
    requires Inv(s)
    ensures Inv(SetQuotaLimits(s, bytesLimit, inodesLimit))
  {
    TreeSameNames(s, SetQuotaLimits(s, bytesLimit, inodesLimit));
    assert Charged(BookOf(SetQuotaLimits(s, bytesLimit, inodesLimit))) == Charged(BookOf(s));
  }

  lemma StepKeepsInv(s: NS, op: Op)
    requires Inv(s) && Allowed(s, op)
    ensures Inv(After(s, op))
  {
    if Run(s, op).Ok? {
      match op
      case OpPublish(_, _, _, _) => PublishKeepsInv(s, op);
      case OpCommit(_, _, _, _) => CommitKeepsInv(s, op);
      case OpMkdir(_, _, _, _) => MkdirKeepsInv(s, op);
      case OpLink(_, _, _, _) => LinkKeepsInv(s, op);
      case OpRemove(_, _, _) => RemoveKeepsInv(s, op);
      case OpRename(_, _, _, _, _) => RenameKeepsInv(s, op);
      case OpDetached(_, _) => DetachedKeepsInv(s, op);
      case OpSetAttr(id, _, _) => PutKeepsInv(s, id, After(s, op).inode[id]);
      case OpLimits(b, i) => LimitsKeepInv(s, b, i);
      case OpReclaim(_) => ReclaimKeepsInv(s, op);
      case OpForget(_) => ForgetKeepsInv(s, op);
    }
  }

  /** What ensureRoot leaves in an empty database. */
  ghost function Fresh(rootRec: InodeRecord): NS {
    NS(map[], map[ROOT := rootRec], {}, Quota(0, 0, 0, 0), ROOT)
  }

  lemma FreshInv(rootRec: InodeRecord)
    requires rootRec.isDir
    ensures Inv(Fresh(rootRec))
  {
    var s := Fresh(rootRec);
    assert Ranked(s, x => 0);
    assert VitalsOf(s.inode) == map[ROOT := VitalOf(rootRec)];
    assert Charged(BookOf(s)) == {};
    assert Names(s.dentry, ROOT) == {};
  }

  /** Over every history: counts, graveyard, quota and tree stay right. */
  lemma {:induction false} HistoryKeepsInv(s: NS, ops: seq<Op>)
    requires Inv(s) && AllAllowed(s, ops)
    ensures Inv(AfterAll(s, ops))
    decreases |ops|
  {
    if ops != [] {
      StepKeepsInv(s, ops[0]);
      HistoryKeepsInv(After(s, ops[0]), ops[1..]);
    }
  }

  /** Usage that grew is within every limit that is set. */
  lemma GrowthWithinLimit(s: NS, op: Op)
    requires Run(s, op).Ok?
    ensures WithinLimits(s.quota, After(s, op).quota)
  {
    if op.OpRename? {
      RenameWithinLimit(s, op);
    }
  }

  /** Usage that grew under a limit has not passed it. */
  predicate WithinLimits(q: Quota, q': Quota) {
    && (q.bytesLimit > 0 && q'.bytesUsed > q.bytesUsed ==> q'.bytesUsed <= q.bytesLimit)
    && (q.inodesLimit > 0 && q'.inodesUsed > q.inodesUsed ==> q'.inodesUsed <= q.inodesLimit)
  }

  function Ceiling(used: nat, limit: nat): nat {
    if used > limit then used else limit
  }

  lemma LimitsStay(s: NS, op: Op)
    requires !op.OpLimits?
    ensures After(s, op).quota.bytesLimit == s.quota.bytesLimit && After(s, op).quota.inodesLimit == s.quota.inodesLimit
  {
    if op.OpRename? && Run(s, op).Ok? {
      RenameLimits(s, op);
    }
  }

  lemma RenameLimits(s: NS, op: Op)
    requires op.OpRename? && Run(s, op).Ok?
    ensures After(s, op).quota.bytesLimit == s.quota.bytesLimit && After(s, op).quota.inodesLimit == s.quota.inodesLimit
  {
    var from, to := Slot(op.oldDir, op.oldName), Slot(op.newDir, op.newName);
    if from != to {
      var src := s.dentry[from];
      var s1 := RenameInSteps(s, op.oldDir, op.oldName, op.newDir, op.newName, op.at, After(s, op));
      MoveBindingShape(s1, src, s.inode[src], from, to, op.at);
    }
  }

  /**
   What a limit means over every history in which it is not set again, whatever the calls and whichever are refused: usage
   never passes the greater of the limit and what was used at the start. That holds from every state of the history on,
   so usage above the limit only shrinks, and once it has come down to it, it stays within.
   */
  lemma {:induction false} LimitHolds(s: NS, ops: seq<Op>)
    requires forall op :: op in ops ==> !op.OpLimits?
    ensures var q, q' := s.quota, AfterAll(s, ops).quota;
            && q'.bytesLimit == q.bytesLimit && q'.inodesLimit == q.inodesLimit
            && (q.bytesLimit > 0 ==> q'.bytesUsed <= Ceiling(q.bytesUsed, q.bytesLimit))
            && (q.inodesLimit > 0 ==> q'.inodesUsed <= Ceiling(q.inodesUsed, q.inodesLimit))
    decreases |ops|
  {
    hide Run;
    if ops != [] {
      LimitsStay(s, ops[0]);
      if Run(s, ops[0]).Ok? {
        GrowthWithinLimit(s, ops[0]);
      }
      LimitHolds(After(s, ops[0]), ops[1..]);
    }
  }

  /** Setting limits changes no usage, even one that is then too high, and from there on they hold. */
  lemma LimitsSet(s: NS, bytes: nat, inodes: nat, ops: seq<Op>)
    requires forall op :: op in ops ==> !op.OpLimits?
    ensures var q := AfterAll(s, [OpLimits(bytes, inodes)] + ops).quota;
            && q.bytesLimit == bytes && q.inodesLimit == inodes
            && (bytes > 0 ==> q.bytesUsed <= Ceiling(s.quota.bytesUsed, bytes))
            && (inodes > 0 ==> q.inodesUsed <= Ceiling(s.quota.inodesUsed, inodes))
  {
    assert ([OpLimits(bytes, inodes)] + ops)[1..] == ops;
    LimitHolds(After(s, OpLimits(bytes, inodes)), ops);
  }

  lemma RenameWithinLimit(s: NS, op: Op)
    requires op.OpRename? && Run(s, op).Ok?
    ensures WithinLimits(s.quota, After(s, op).quota)
  {
    var from, to := Slot(op.oldDir, op.oldName), Slot(op.newDir, op.newName);
    if from != to {
      var src := s.dentry[from];
      var s1 := RenameInSteps(s, op.oldDir, op.oldName, op.newDir, op.newName, op.at, After(s, op));
      MoveBindingShape(s1, src, s.inode[src], from, to, op.at);
    }
  }

  // --- each condition on the callers is needed ------------------------------------

  /**
   Renaming one name of a file onto another name of the same file writes back the record read before the
   count was lowered: the counts stay right exactly when the two names are not of one inode.
   */
  lemma RenameCountsIff(s: NS, oldDir: InodeID, oldName: string, newDir: InodeID, newName: string, at: Time, s': NS)
    requires Inv(s) && LiveDir(s, newDir) && Renamed(s, oldDir, oldName, newDir, newName, at, s')
    ensures Counted(BookOf(s')) <==> !SameInode(s, Slot(oldDir, oldName), Slot(newDir, newName))
  {
    var from, to := Slot(oldDir, oldName), Slot(newDir, newName);
    if SameInode(s, from, to) {
      var s1 := RenameInSteps(s, oldDir, oldName, newDir, newName, at, s');
      SameInodeSteps(s, from, to, at, s1, s');
    } else {
      RenameKeepsInv(s, OpRename(oldDir, oldName, newDir, newName, at));
    }
  }

  lemma SameInodeSteps(s: NS, from: Slot, to: Slot, at: Time, s1: NS, s': NS)
    requires Balanced(BookOf(s)) && RenameSteps(s, from, to, at, s1, s') && SameInode(s, from, to)
    ensures !Counted(BookOf(s'))
  {
    var id := s.dentry[from];
    assert s1.dentry == s.dentry;
    MoveBindingShape(s1, id, s.inode[id], from, to, at);
    VitalAt(s, id);
    SameInodeMiscounts(BookOf(s), from, to, BookOf(s'));
  }

  lemma SameInodeMiscounts(b: Book, from: Slot, to: Slot, b': Book)
    requires Balanced(b) && from in b.dentry && to in b.dentry && from != to && b.dentry[from] == b.dentry[to]
    requires b'.dentry == (b.dentry - {from})[to := b.dentry[from]]
    requires b.dentry[from] in b'.vitals && b'.vitals[b.dentry[from]] == b.vitals[b.dentry[from]]
    ensures !Counted(b')
  {
    var id := b.dentry[from];
    LastName(b, from);
    assert to in Names(b.dentry, id) && from in Names(b.dentry, id);
    assert Names(b'.dentry, id) == Names(b.dentry, id) - {from};
  }

  lemma LinkGraved(s: NS, dir: InodeID, name: string, target: InodeID, now: Time)
    requires Link(s, dir, name, target, now).Ok? && IsGraved(s, target) && target != ROOT
    ensures !Buried(BookOf(Link(s, dir, name, target, now).value))
  {
    var s' := Link(s, dir, name, target, now).value;
    assert s'.graves == s.graves && s'.dentry[Slot(dir, name)] == target;
    VitalAt(s', target);
  }

  /** Linking a graved inode names it while it stays in the graveyard, where a sweep will take it. */
  lemma LinkBuriedIff(s: NS, dir: InodeID, name: string, target: InodeID, now: Time)
    requires Inv(s) && LiveDir(s, dir) && Link(s, dir, name, target, now).Ok?
    ensures Buried(BookOf(Link(s, dir, name, target, now).value)) <==> !IsGraved(s, target)
  {
    var s' := Link(s, dir, name, target, now).value;
    if IsGraved(s, target) {
      LinkGraved(s, dir, name, target, now);
    } else {
      LinkKeepsInv(s, OpLink(dir, name, target, now));
    }
  }

  /** A detached write charges nothing, so on an inode that still has a name usage drifts with its size. */
  lemma DetachedExactIff(s: NS, id: InodeID, rec: InodeRecord)
    requires Inv(s) && id in s.inode
    ensures Exact(BookOf(UpdateInodeContent(s, id, rec).value)) <==> !Named(s.dentry, id) || rec.size == s.inode[id].size
  {
    var b, b' := BookOf(s), BookOf(UpdateInodeContent(s, id, rec).value);
    DetachedBooks(s, id, rec);
    VitalAt(s, id);
    if !Named(s.dentry, id) {
      DetachedBalanced(b, id, rec.size);
    } else {
      assert Charged(b') == Charged(b) && id in Charged(b);
      SumRemove(b.vitals, Charged(b), id);
      SumRemove(b'.vitals, Charged(b), id);
      SumAgrees(b.vitals, b'.vitals, Charged(b) - {id});
    }
  }

  /** RemoveEntry does not look inside a directory; the tree survives exactly when it is empty. */
  lemma RemoveTreeIff(s: NS, dir: InodeID, name: string, at: Time)
    requires Inv(s) && RemoveEntry(s, dir, name, at).Ok?
    ensures Tree(RemoveEntry(s, dir, name, at).value) <==> !HasEntries(s.dentry, s.dentry[Slot(dir, name)])
  {
    var k := Slot(dir, name);
    var s' := RemoveEntry(s, dir, name, at).value;
    RemoveBooks(s, dir, name, at);
    if HasEntries(s.dentry, s.dentry[k]) {
      RemoveNonEmpty(s, s', k);
    } else {
      RemoveKeepsInv(s, OpRemove(dir, name, at));
    }
  }

  lemma RemoveNonEmpty(s: NS, s': NS, k: Slot)
    requires Tree(s) && k in s.dentry && s'.dentry == s.dentry - {k} && HasEntries(s.dentry, s.dentry[k])
    ensures !Tree(s')
  {
    var j :| j in s.dentry.Keys && j.dir == s.dentry[k];
    assert Anchored(s, j) && Anchored(s, k);
    assert j != k by {
      ParentNotWithin(s, k);
      WithinSelf(s.dentry, k.dir);
    }
    assert j in s'.dentry && !Anchored(s', j);
  }

  /** A file published into a directory that was itself removed would hang off nothing. */
  lemma PublishTreeIff(s: NS, dir: InodeID, name: string, rec: InodeRecord, now: Time)
    requires Inv(s) && FileRecord(rec) && PublishFile(s, dir, name, rec, now).Ok?
    ensures Tree(PublishFile(s, dir, name, rec, now).value) <==> LiveDir(s, dir)
  {
    var s' := PublishFile(s, dir, name, rec, now).value;
    PublishBooks(s, dir, name, rec, now);
    if LiveDir(s, dir) {
      PublishKeepsInv(s, OpPublish(dir, name, rec, now));
    } else {
      VitalAt(s, dir);
      CreateNames(BookOf(s), Slot(dir, name), false, rec.size, dir);
      assert Slot(dir, name) in s'.dentry && !Anchored(s', Slot(dir, name));
    }
  }

  lemma Unanchored(s: NS, k: Slot)
    requires k in s.dentry && !LiveDir(s, k.dir)
    ensures !Tree(s)
  {
    assert !Anchored(s, k);
  }

  /** So for a file committed under a new name, for a new directory and for a new link. */
  lemma CommitTreeIff(s: NS, dir: InodeID, name: string, rec: InodeRecord, now: Time)
    requires Inv(s) && FileRecord(rec) && CommitFile(s, dir, name, rec, now).Ok? && Slot(dir, name) !in s.dentry
    ensures Tree(CommitFile(s, dir, name, rec, now).value) <==> LiveDir(s, dir)
  {
    CommitBooks(s, dir, name, rec, now);
    if LiveDir(s, dir) {
      CommitKeepsInv(s, OpCommit(dir, name, rec, now));
    } else {
      VitalAt(s, dir);
      CreateNames(BookOf(s), Slot(dir, name), false, rec.size, dir);
      Unanchored(CommitFile(s, dir, name, rec, now).value, Slot(dir, name));
    }
  }

  lemma MkdirTreeIff(s: NS, dir: InodeID, name: string, rec: InodeRecord, now: Time)
    requires Inv(s) && DirRecord(rec) && CommitMkdir(s, dir, name, rec, now).Ok?
    ensures Tree(CommitMkdir(s, dir, name, rec, now).value) <==> LiveDir(s, dir)
  {
    hide CommitMkdir;
    MkdirBooks(s, dir, name, rec, now);
    if LiveDir(s, dir) {
      MkdirKeepsInv(s, OpMkdir(dir, name, rec, now));
    } else {
      MkdirParent(s, dir, name, rec, now);
      VitalAt(s, dir);
      CreateNames(BookOf(s), Slot(dir, name), true, 0, dir);
      Unanchored(CommitMkdir(s, dir, name, rec, now).value, Slot(dir, name));
    }
  }

  lemma MkdirParent(s: NS, dir: InodeID, name: string, rec: InodeRecord, now: Time)
    requires CommitMkdir(s, dir, name, rec, now).Ok?
    ensures dir in s.inode && Slot(dir, name) !in s.dentry
  {
  }

  lemma LinkTreeIff(s: NS, dir: InodeID, name: string, target: InodeID, now: Time)
    requires Inv(s) && !IsGraved(s, target) && Link(s, dir, name, target, now).Ok?
    ensures Tree(Link(s, dir, name, target, now).value) <==> LiveDir(s, dir)
  {
    var s' := Link(s, dir, name, target, now).value;
    if LiveDir(s, dir) {
      LinkKeepsInv(s, OpLink(dir, name, target, now));
    } else {
      assert s'.dentry == s.dentry[Slot(dir, name) := target] && dir != target;
      Unanchored(s', Slot(dir, name));
    }
  }

  /** A rename into a removed directory likewise. */
  lemma RenameTreeIff(s: NS, oldDir: InodeID, oldName: string, newDir: InodeID, newName: string, at: Time, s': NS)
    requires Inv(s) && Renamed(s, oldDir, oldName, newDir, newName, at, s')
    ensures Tree(s') <==> LiveDir(s, newDir)
  {
    RenameFacts(s, oldDir, oldName, newDir, newName, at, s');
    if LiveDir(s, newDir) {
      RenameKeepsTree(s, oldDir, oldName, newDir, newName, at, s');
    } else {
      var from, to := Slot(oldDir, oldName), Slot(newDir, newName);
      forall k | k in s'.dentry ensures s'.dentry[k] != newDir {
        if k != to {
          assert k in s.dentry && s'.dentry[k] == s.dentry[k];
        }
      }
      Unanchored(s', to);
    }
  }

  /** Deleting a record that a name or the root needs breaks the tree; a swept one has neither. */
  lemma ReclaimInvIff(s: NS, id: InodeID)
    requires Inv(s) && id in s.inode
    ensures Inv(DeleteInode(s, id)) <==> IsGraved(s, id)
  {
    if IsGraved(s, id) {
      ReclaimKeepsInv(s, OpReclaim(id));
    } else if id != ROOT {
      VitalAt(s, id);
      var k :| k in s.dentry && s.dentry[k] == id;
      assert !Anchored(DeleteInode(s, id), k);
    }
  }

  /** Forgetting the grave of a record that is still there leaves an inode with neither name nor grave. */
  lemma ForgetInvIff(s: NS, g: Grave)
    requires Inv(s) && g in s.graves
    ensures Inv(RemoveGrave(s, g)) <==> g.id !in s.inode
  {
    if g.id !in s.inode {
      ForgetKeepsInv(s, OpForget(g));
    } else {
      var s' := RemoveGrave(s, g);
      VitalAt(s, g.id);
      assert Graved(s.graves, g.id) && g.id != ROOT && !Named(s.dentry, g.id);
      assert !Graved(s'.graves, g.id);
      assert g.id in BookOf(s').vitals && !Buried(BookOf(s'));
    }
  }
}
