/** Directory link counts over whole histories, file operations and sweeps included. */
module DirHistories {
  import opened Base
  import opened Namespace
  import opened TreeShape
  import opened Accounting
  import opened Histories
  import opened DirCounts

  /** Mkdir records start at two links; and a directory is never renamed onto another, which is where the counts go wrong. */
  ghost predicate Orderly(s: NS, op: Op) {
    match op
    case OpMkdir(_, _, rec, _) => rec.nlink == 2
    case OpRename(oldDir, oldName, newDir, newName, _) =>
      var from, to := Slot(oldDir, oldName), Slot(newDir, newName);
      from == to || to !in s.dentry || !IsDir(s, s.dentry[to])
    case _ => true
  }

  ghost predicate AllOrderly(s: NS, ops: seq<Op>)
    decreases |ops|
  {
    ops == [] || (Orderly(s, ops[0]) && AllOrderly(After(s, ops[0]), ops[1..]))
  }

  // --- transactions on files ------------------------------------------------------------------

  /** The same directories under the same names. */
  ghost predicate SameDirEntries(d: Dentries, d': Dentries, dirs: set<InodeID>) {
    forall k :: (k in d && d[k] in dirs <==> k in d' && d'[k] in dirs) && (k in d && d[k] in dirs ==> d[k] == d'[k])
  }

  lemma SameEntriesCounted(d: Dentries, d': Dentries, links: Links)
    requires AllCounted(d, links) && SameDirEntries(d, d', links.Keys)
    ensures AllCounted(d', links)
  {
    forall x ensures CountedAt(d', links, x) {
      assert CountedAt(d, links, x);
      assert Subdirs(d', links.Keys, x) == Subdirs(d, links.Keys, x);
      if x in links && Named(d', x) {
        var k :| k in d' && d'[k] == x;
        assert d[k] == x;
      }
    }
  }

  lemma FileBound(s: NS, s': NS, k: Slot, id: InodeID)
    requires DirCounted(s) && LinksOf(s'.inode) == LinksOf(s.inode) && id !in LinksOf(s.inode)
    requires k in s.dentry ==> s.dentry[k] !in LinksOf(s.inode)
    requires s'.dentry == s.dentry[k := id]
    ensures DirCounted(s')
  {
    SameEntriesCounted(s.dentry, s'.dentry, LinksOf(s.inode));
  }

  lemma FileUnbound(s: NS, s': NS, k: Slot)
    requires DirCounted(s) && LinksOf(s'.inode) == LinksOf(s.inode)
    requires k in s.dentry && s.dentry[k] !in LinksOf(s.inode) && s'.dentry == s.dentry - {k}
    ensures DirCounted(s')
  {
    SameEntriesCounted(s.dentry, s'.dentry, LinksOf(s.inode));
  }

  lemma NewFileCounts(s: NS, dir: InodeID, name: string, rec: InodeRecord, q: Quota, now: Time, s': NS)
    requires DirCounted(s) && !rec.isDir && s.next + 1 !in s.inode && Slot(dir, name) !in s.dentry
    requires SetDentry(PutInode(s, s.next + 1, rec).(quota := q, next := s.next + 1), dir, name, s.next + 1, now) == Ok(s')
    ensures DirCounted(s')
  {
    hide DirCounted;
    var s0 := PutInode(s, s.next + 1, rec).(quota := q, next := s.next + 1);
    PutLinks(s.inode, s.next + 1, rec);
    TouchKeepsLinks(s0, dir, now);
    assert LinksOf(s.inode) - {s.next + 1} == LinksOf(s.inode);
    FileBound(s, s', Slot(dir, name), s.next + 1);
  }

  lemma PublishCounts(s: NS, op: Op)
    requires op.OpPublish? && Inv(s) && DirCounted(s) && Allowed(s, op) && Run(s, op).Ok?
    ensures DirCounted(After(s, op))
  {
    hide Tree, Balanced, DirCounted;
    FreshInode(s);
    NewFileCounts(s, op.dir, op.name, op.rec, ApplyQuota(s.quota, op.rec.size, 1).value, op.now, After(s, op));
  }

  lemma CommitCounts(s: NS, op: Op)
    requires op.OpCommit? && Inv(s) && DirCounted(s) && Allowed(s, op) && Run(s, op).Ok?
    ensures DirCounted(After(s, op))
  {
    hide Tree, Balanced, DirCounted;
    var k := Slot(op.dir, op.name);
    if k in s.dentry {
      FileOverwritten(s, s.dentry[k], Overwritten(s.inode[s.dentry[k]], op.rec, op.now), After(s, op).quota);
    } else {
      FreshInode(s);
      var rec := if op.rec.atime == 0 then op.rec.(atime := op.rec.mtime) else op.rec;
      NewFileCounts(s, op.dir, op.name, rec, ApplyQuota(s.quota, op.rec.size, 1).value, op.now, After(s, op));
    }
  }

  lemma FileOverwritten(s: NS, id: InodeID, rec: InodeRecord, q: Quota)
    requires DirCounted(s) && id in s.inode && !s.inode[id].isDir && !rec.isDir
    ensures DirCounted(PutInode(s, id, rec).(quota := q))
  {
    PutLinks(s.inode, id, rec);
    assert LinksOf(s.inode) - {id} == LinksOf(s.inode);
  }

  lemma LinkCounts(s: NS, op: Op)
    requires op.OpLink? && DirCounted(s) && Run(s, op).Ok?
    ensures DirCounted(After(s, op))
  {
    var rec := s.inode[op.target];
    var rec' := rec.(nlink := (if rec.nlink == 0 then 1 else rec.nlink) + 1, ctime := op.now);
    PutLinks(s.inode, op.target, rec');
    assert LinksOf(s.inode) - {op.target} == LinksOf(s.inode);
    TouchKeepsLinks(PutInode(s, op.target, rec'), op.dir, op.now);
    FileBound(s, After(s, op), Slot(op.dir, op.name), op.target);
  }

  lemma RemoveFileLinks(s: NS, dir: InodeID, name: string, at: Time)
    requires RemoveEntry(s, dir, name, at).Ok? && !IsDir(s, s.dentry[Slot(dir, name)])
    ensures LinksOf(RemoveEntry(s, dir, name, at).value.inode) == LinksOf(s.inode)
    ensures RemoveEntry(s, dir, name, at).value.dentry == s.dentry - {Slot(dir, name)}
  {
    var id, s0 := s.dentry[Slot(dir, name)], s.(dentry := s.dentry - {Slot(dir, name)});
    TouchKeepsLinks(s0, dir, at);
    DropLinkLinks(TouchDir(s0, dir, at).value, id, s.inode[id], at);
  }

  lemma RemoveCounts(s: NS, op: Op)
    requires op.OpRemove? && Inv(s) && DirCounted(s) && Allowed(s, op) && Run(s, op).Ok?
    ensures DirCounted(After(s, op))
  {
    var k := Slot(op.dir, op.name);
    if IsDir(s, s.dentry[k]) {
      RmdirCounts(s, op.dir, op.name, op.at);
    } else {
      RemoveFileLinks(s, op.dir, op.name, op.at);
      FileUnbound(s, After(s, op), k);
    }
  }

  // --- rename -------------------------------------------------------------------------------

  lemma MoveFileLinks(s: NS, src: InodeID, srcRec: InodeRecord, from: Slot, to: Slot, at: Time)
    requires MoveBinding(s, src, srcRec, from, to, at).Ok? && !srcRec.isDir && src !in LinksOf(s.inode)
    ensures LinksOf(MoveBinding(s, src, srcRec, from, to, at).value.inode) == LinksOf(s.inode)
    ensures MoveBinding(s, src, srcRec, from, to, at).value.dentry == (s.dentry - {from})[to := src]
  {
    var s0 := s.(dentry := s.dentry - {from});
    TouchKeepsLinks(s0, from.dir, at);
    var s1 := TouchDir(s0, from.dir, at).value;
    PutLinks(s1.inode, src, srcRec.(ctime := at));
    assert LinksOf(s1.inode) - {src} == LinksOf(s1.inode);
    TouchKeepsLinks(PutInode(s1, src, srcRec.(ctime := at)), to.dir, at);
  }

  lemma DisplaceFileLinks(s: NS, src: InodeRecord, newDir: InodeID, newName: string, at: Time)
    requires Displace(s, src, newDir, newName, at).Ok? && !src.isDir
    ensures var s1 := Displace(s, src, newDir, newName, at).value; LinksOf(s1.inode) == LinksOf(s.inode) && s1.dentry == s.dentry
    ensures Slot(newDir, newName) in s.dentry ==> s.dentry[Slot(newDir, newName)] !in LinksOf(s.inode)
  {
    if Slot(newDir, newName) in s.dentry {
      var dst := s.dentry[Slot(newDir, newName)];
      DropLinkLinks(s, dst, s.inode[dst], at);
    }
  }

  lemma RenameFileCounts(s: NS, from: Slot, to: Slot, at: Time, s1: NS, s': NS)
    requires DirCounted(s) && RenameSteps(s, from, to, at, s1, s') && !IsDir(s, s.dentry[from])
    ensures DirCounted(s')
  {
    var src := s.dentry[from];
    DisplaceFileLinks(s, s.inode[src], to.dir, to.name, at);
    MoveFileLinks(s1, src, s.inode[src], from, to, at);
    SameEntriesCounted(s.dentry, s'.dentry, LinksOf(s.inode));
  }

  lemma RenameCounts(s: NS, op: Op)
    requires op.OpRename? && Inv(s) && DirCounted(s) && Allowed(s, op) && Orderly(s, op) && Run(s, op).Ok?
    ensures DirCounted(After(s, op))
  {
    var from, to := Slot(op.oldDir, op.oldName), Slot(op.newDir, op.newName);
    if from != to {
      var s' := After(s, op);
      if IsDir(s, s.dentry[from]) {
        RenameFacts(s, op.oldDir, op.oldName, op.newDir, op.newName, op.at, s');
        RenameDirCountsIff(s, op.oldDir, op.oldName, op.newDir, op.newName, op.at, s');
      } else {
        var s1 := RenameInSteps(s, op.oldDir, op.oldName, op.newDir, op.newName, op.at, s');
        RenameFileCounts(s, from, to, op.at, s1, s');
      }
    }
  }

  // --- writes to one record -------------------------------------------------------------------

  lemma PutCounts(s: NS, id: InodeID, rec: InodeRecord)
    requires DirCounted(s) && id in s.inode && rec.isDir == s.inode[id].isDir && rec.nlink == s.inode[id].nlink
    ensures DirCounted(PutInode(s, id, rec))
  {
    PutLinks(s.inode, id, rec);
    assert LinksOf(s.inode[id := rec]) == LinksOf(s.inode);
  }

  /** A swept directory had no name, so it was nobody's subdirectory. */
  lemma ReclaimCounts(s: NS, id: InodeID)
    requires Inv(s) && DirCounted(s) && IsGraved(s, id)
    ensures DirCounted(DeleteInode(s, id))
  {
    var links := LinksOf(s.inode);
    assert LinksOf(DeleteInode(s, id).inode) == links - {id};
    if id in s.inode {
      VitalAt(s, id);
      UnnamedForgotten(s.dentry, links, id);
    } else {
      assert links - {id} == links;
    }
  }

  lemma UnnamedForgotten(d: Dentries, links: Links, id: InodeID)
    requires AllCounted(d, links) && !Named(d, id)
    ensures AllCounted(d, links - {id})
  {
    forall x ensures CountedAt(d, links - {id}, x) {
      assert CountedAt(d, links, x);
      assert Subdirs(d, (links - {id}).Keys, x) == Subdirs(d, links.Keys, x);
    }
  }

  // --- histories ------------------------------------------------------------------------------

  lemma StepKeepsCounts(s: NS, op: Op)
    requires Inv(s) && DirCounted(s) && Allowed(s, op) && Orderly(s, op)
    ensures DirCounted(After(s, op))
  {
    hide Inv, DirCounted;
    if Run(s, op).Ok? {
      match op
      case OpPublish(_, _, _, _) => PublishCounts(s, op);
      case OpCommit(_, _, _, _) => CommitCounts(s, op);
      case OpMkdir(dir, name, rec, now) => MkdirCounts(s, dir, name, rec, now);
      case OpLink(_, _, _, _) => LinkCounts(s, op);
      case OpRemove(_, _, _) => RemoveCounts(s, op);
      case OpRename(_, _, _, _, _) => RenameCounts(s, op);
      case OpDetached(id, _) => PutCounts(s, id, After(s, op).inode[id]);
      case OpSetAttr(id, _, _) => PutCounts(s, id, After(s, op).inode[id]);
      case OpLimits(b, i) => LimitsCounted(s, b, i);
      case OpReclaim(id) => ReclaimCounts(s, id);
      case OpForget(g) => ForgetCounted(s, g);
    }
  }

  lemma LimitsCounted(s: NS, b: nat, i: nat)
    requires DirCounted(s)
    ensures DirCounted(SetQuotaLimits(s, b, i))
  {
  }

  lemma ForgetCounted(s: NS, g: Grave)
    requires DirCounted(s)
    ensures DirCounted(RemoveGrave(s, g))
  {
  }

  /** Over every orderly history, every reachable directory's count is two plus the number of its subdirectories. */
  lemma {:induction false} HistoryKeepsCounts(s: NS, ops: seq<Op>)
    requires Inv(s) && DirCounted(s) && AllAllowed(s, ops) && AllOrderly(s, ops)
    ensures DirCounted(AfterAll(s, ops))
    decreases |ops|
  {
    hide Inv, DirCounted, Allowed, Orderly, After;
    if ops != [] {
      StepKeepsInv(s, ops[0]);
      StepKeepsCounts(s, ops[0]);
      HistoryKeepsCounts(After(s, ops[0]), ops[1..]);
    }
  }
}
