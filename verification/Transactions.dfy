/**
 What each transaction leaves of every bucket and record, and exactly when it is refused. Whoever reads a record after a
 transaction sees the old one but for the fields named here.
 */
module Transactions {
  import opened Base
  import opened Namespace
  import opened TreeShape
  import Accounting
  import opened Histories

  // --- quota -----------------------------------------------------------------------------------

  /** Growth stays within each limit that is set; shrinking always does. */
  predicate Allows(q: Quota, bytes: int, inodes: int) {
    && (bytes <= 0 || q.bytesLimit == 0 || q.bytesUsed + bytes <= q.bytesLimit)
    && (inodes <= 0 || q.inodesLimit == 0 || q.inodesUsed + inodes <= q.inodesLimit)
  }

  /** Usage moved by this much, the limits did not. */
  predicate Charged(q: Quota, q': Quota, bytes: int, inodes: int) {
    && q'.bytesLimit == q.bytesLimit && q'.inodesLimit == q.inodesLimit
    && q'.bytesUsed == q.bytesUsed + bytes && q'.inodesUsed == q.inodesUsed + inodes
  }

  /** A limit refuses exactly the growth that would pass it. */
  lemma QuotaRefusesIff(q: Quota, bytes: int, inodes: int)
    ensures ApplyQuota(q, bytes, inodes) == Err(QuotaExceeded) <==> !Allows(q, bytes, inodes)
    ensures Allows(q, bytes, inodes) && q.bytesUsed + bytes >= 0 && q.inodesUsed + inodes >= 0 ==>
              ApplyQuota(q, bytes, inodes).Ok? && Charged(q, ApplyQuota(q, bytes, inodes).value, bytes, inodes)
  {
  }

  // --- records -----------------------------------------------------------------------------------

  /** Records outside `ids` are as they were. */
  ghost predicate Elsewhere(s: NS, s': NS, ids: set<InodeID>) {
    forall x :: x !in ids ==> (x in s'.inode <==> x in s.inode) && (x in s.inode ==> s'.inode[x] == s.inode[x])
  }

  /** A directory in which a name changed. */
  function Touched(rec: InodeRecord, at: Time): InodeRecord {
    rec.(mtime := at, ctime := at)
  }

  /** One whose subdirectories changed too. */
  function Recounted(rec: InodeRecord, delta: int, at: Time): InodeRecord {
    Touched(rec.(nlink := if rec.nlink + delta < 2 then 2 else rec.nlink + delta), at)
  }

  /** A file or directory that lost a name. */
  function Fewer(rec: InodeRecord, at: Time): InodeRecord {
    rec.(nlink := if !rec.isDir && rec.nlink > 1 then rec.nlink - 1 else 0, ctime := at)
  }

  /** Losing that name was losing the last. */
  predicate Last(rec: InodeRecord) {
    rec.isDir || rec.nlink <= 1
  }

  /** The grave and the refund of the last name, or neither. */
  ghost predicate Released(s: NS, s': NS, id: InodeID, at: Time)
    requires id in s.inode
  {
    if Last(s.inode[id]) then s'.graves == s.graves + {Grave(at, id)} && Charged(s.quota, s'.quota, 0 - s.inode[id].size, -1)
    else s'.graves == s.graves && s'.quota == s.quota
  }

  predicate Bound(s: NS, dir: InodeID, name: string) {
    Slot(dir, name) in s.dentry
  }

  // --- creating ------------------------------------------------------------------------------------

  lemma PublishRefusedIff(s: NS, dir: InodeID, name: string, rec: InodeRecord, now: Time)
    ensures var r := PublishFile(s, dir, name, rec, now); var free := IsDir(s, dir) && !Bound(s, dir, name);
            && (r == Err(NotFound) <==> dir !in s.inode)
            && (r == Err(NotDir) <==> dir in s.inode && !IsDir(s, dir))
            && (r == Err(Exists) <==> IsDir(s, dir) && Bound(s, dir, name))
            && (r == Err(QuotaExceeded) <==> free && !Allows(s.quota, rec.size, 1))
            && (r == Err(NameTooLong) <==> free && Allows(s.quota, rec.size, 1) && |name| > 255)
            && (r.Ok? <==> free && Allows(s.quota, rec.size, 1) && |name| <= 255)
  {
    QuotaRefusesIff(s.quota, rec.size, 1);
  }

  /** A new inode under a new name: the record as given, its charge, and the parent's times. */
  ghost predicate Created(s: NS, s': NS, dir: InodeID, name: string, rec: InodeRecord, parent: InodeRecord, size: nat) {
    var id := s.next + 1;
    && Slot(dir, name) !in s.dentry && s'.dentry == s.dentry[Slot(dir, name) := id] && s'.next == id && s'.graves == s.graves
    && Charged(s.quota, s'.quota, size, 1)
    && id !in s.inode && id in s'.inode && s'.inode[id] == rec
    && dir in s.inode && dir in s'.inode && s'.inode[dir] == parent && Elsewhere(s, s', {id, dir})
  }

  lemma PublishDoesAt(s: NS, dir: InodeID, name: string, rec: InodeRecord, now: Time)
    requires s.next + 1 !in s.inode && PublishFile(s, dir, name, rec, now).Ok?
    ensures dir in s.inode && Created(s, PublishFile(s, dir, name, rec, now).value, dir, name, rec, Touched(s.inode[dir], now), rec.size)
  {
  }

  lemma PublishDoes(s: NS, dir: InodeID, name: string, rec: InodeRecord, now: Time)
    requires Inv(s) && PublishFile(s, dir, name, rec, now).Ok?
    ensures dir in s.inode && Created(s, PublishFile(s, dir, name, rec, now).value, dir, name, rec, Touched(s.inode[dir], now), rec.size)
  {
    hide Inv, PublishFile, Created;
    NextIsFree(s);
    PublishDoesAt(s, dir, name, rec, now);
  }

  lemma CommitRefusedIff(s: NS, dir: InodeID, name: string, rec: InodeRecord, now: Time)
    ensures var r := CommitFile(s, dir, name, rec, now); var free := IsDir(s, dir) && !Bound(s, dir, name);
            var file := IsDir(s, dir) && Bound(s, dir, name) && s.dentry[Slot(dir, name)] in s.inode && !IsDir(s, s.dentry[Slot(dir, name)]);
            && (r == Err(NotFound) <==> dir !in s.inode || (IsDir(s, dir) && Bound(s, dir, name) && s.dentry[Slot(dir, name)] !in s.inode))
            && (r == Err(NotDir) <==> dir in s.inode && !IsDir(s, dir))
            && (r == Err(IsDirectory) <==> IsDir(s, dir) && Bound(s, dir, name) && IsDir(s, s.dentry[Slot(dir, name)]))
            && (r == Err(NameTooLong) <==> free && Allows(s.quota, rec.size, 1) && |name| > 255)
            && (r.Ok? <==> || (free && Allows(s.quota, rec.size, 1) && |name| <= 255)
                           || (file && Allows(s.quota, rec.size - s.inode[s.dentry[Slot(dir, name)]].size, 0)))
            && (r == Err(QuotaExceeded) <==> || (free && !Allows(s.quota, rec.size, 1))
                                             || (file && !Allows(s.quota, rec.size - s.inode[s.dentry[Slot(dir, name)]].size, 0)))
  {
    if Bound(s, dir, name) && s.dentry[Slot(dir, name)] in s.inode {
      QuotaRefusesIff(s.quota, rec.size - s.inode[s.dentry[Slot(dir, name)]].size, 0);
    }
    QuotaRefusesIff(s.quota, rec.size, 1);
  }

  /** Bytes charged for a named file are in use. */
  lemma UsedAtLeast(s: NS, k: Slot)
    requires Inv(s) && k in s.dentry
    ensures s.dentry[k] in s.inode && s.quota.bytesUsed >= s.inode[s.dentry[k]].size && s.quota.inodesUsed >= 1
  {
    assert Anchored(s, k);
    VitalAt(s, s.dentry[k]);
    var b, id := Accounting.BookOf(s), s.dentry[k];
    assert id in Accounting.Charged(b);
    Accounting.SumRemove(b.vitals, Accounting.Charged(b), id);
    Accounting.SumNonNegative(b.vitals, Accounting.Charged(b) - {id});
    assert Accounting.Charged(b) != {};
  }

  /** The record of a file that was overwritten: what it holds is the caller's, whose it is stays. */
  ghost predicate Rewritten(r: InodeRecord, r': InodeRecord, rec: InodeRecord, now: Time) {
    && r'.size == rec.size && r'.content == rec.content && r'.kind == rec.kind && r'.isDir == rec.isDir
    && r'.mtime == rec.mtime && r'.ctime == now && r'.atime == r.atime
    && r'.nlink == r.nlink && r'.mode == r.mode && r'.uid == r.uid && r'.gid == r.gid
  }

  /** Only this file was overwritten, and the difference in size charged. */
  ghost predicate Replaced(s: NS, s': NS, id: InodeID, rec: InodeRecord, now: Time) {
    && id in s.inode && id in s'.inode && Elsewhere(s, s', {id}) && Rewritten(s.inode[id], s'.inode[id], rec, now)
    && s'.dentry == s.dentry && s'.graves == s.graves && s'.next == s.next
    && Charged(s.quota, s'.quota, rec.size - s.inode[id].size, 0)
  }

  lemma OverwriteDoes(s: NS, dir: InodeID, name: string, rec: InodeRecord, now: Time)
    requires CommitFile(s, dir, name, rec, now).Ok? && Slot(dir, name) in s.dentry
    requires s.dentry[Slot(dir, name)] in s.inode ==> s.quota.bytesUsed >= s.inode[s.dentry[Slot(dir, name)]].size
    ensures Replaced(s, CommitFile(s, dir, name, rec, now).value, s.dentry[Slot(dir, name)], rec, now)
  {
  }

  lemma CreateDoes(s: NS, dir: InodeID, name: string, rec: InodeRecord, now: Time)
    requires CommitFile(s, dir, name, rec, now).Ok? && Slot(dir, name) !in s.dentry && s.next + 1 !in s.inode
    ensures dir in s.inode
    ensures Created(s, CommitFile(s, dir, name, rec, now).value, dir, name,
                    rec.(atime := if rec.atime == 0 then rec.mtime else rec.atime), Touched(s.inode[dir], now), rec.size)
  {
  }

  /** Committing under a new name creates, under an old one it replaces. */
  lemma CommitDoes(s: NS, dir: InodeID, name: string, rec: InodeRecord, now: Time)
    requires Inv(s) && CommitFile(s, dir, name, rec, now).Ok?
    ensures dir in s.inode
    ensures var s', k := CommitFile(s, dir, name, rec, now).value, Slot(dir, name);
            if k in s.dentry then Replaced(s, s', s.dentry[k], rec, now)
            else Created(s, s', dir, name, rec.(atime := if rec.atime == 0 then rec.mtime else rec.atime), Touched(s.inode[dir], now), rec.size)
  {
    hide Inv, CommitFile, Replaced, Created;
    CommitRefusedIff(s, dir, name, rec, now);
    if Slot(dir, name) in s.dentry {
      UsedAtLeast(s, Slot(dir, name));
      OverwriteDoes(s, dir, name, rec, now);
    } else {
      NextIsFree(s);
      CreateDoes(s, dir, name, rec, now);
    }
  }

  lemma NextIsFree(s: NS)
    requires Inv(s)
    ensures s.next + 1 !in s.inode
  {
    hide Tree;
    FreshInode(s);
  }

  lemma MkdirRefusedIff(s: NS, dir: InodeID, name: string, rec: InodeRecord, now: Time)
    ensures var r := CommitMkdir(s, dir, name, rec, now); var free := IsDir(s, dir) && !Bound(s, dir, name);
            && (r == Err(NotFound) <==> dir !in s.inode)
            && (r == Err(NotDir) <==> dir in s.inode && !IsDir(s, dir))
            && (r == Err(Exists) <==> IsDir(s, dir) && Bound(s, dir, name))
            && (r == Err(QuotaExceeded) <==> free && !Allows(s.quota, 0, 1))
            && (r == Err(NameTooLong) <==> free && Allows(s.quota, 0, 1) && |name| > 255)
            && (r.Ok? <==> free && Allows(s.quota, 0, 1) && |name| <= 255)
  {
    QuotaRefusesIff(s.quota, 0, 1);
  }

  lemma MkdirDoesAt(s: NS, dir: InodeID, name: string, rec: InodeRecord, now: Time)
    requires s.next + 1 !in s.inode && CommitMkdir(s, dir, name, rec, now).Ok?
    ensures dir in s.inode && Created(s, CommitMkdir(s, dir, name, rec, now).value, dir, name, rec, Recounted(s.inode[dir], 1, now), 0)
  {
  }

  lemma MkdirDoes(s: NS, dir: InodeID, name: string, rec: InodeRecord, now: Time)
    requires Inv(s) && CommitMkdir(s, dir, name, rec, now).Ok?
    ensures dir in s.inode && Created(s, CommitMkdir(s, dir, name, rec, now).value, dir, name, rec, Recounted(s.inode[dir], 1, now), 0)
  {
    hide Inv, CommitMkdir, Created;
    NextIsFree(s);
    MkdirDoesAt(s, dir, name, rec, now);
  }

  // --- linking and removing -------------------------------------------------------------------------

  lemma LinkRefusedIff(s: NS, dir: InodeID, name: string, target: InodeID, now: Time)
    ensures var r := Link(s, dir, name, target, now); var file := target in s.inode && !IsDir(s, target);
            && (r == Err(NotFound) <==> target !in s.inode || (file && dir !in s.inode))
            && (r == Err(IsDirectory) <==> IsDir(s, target))
            && (r == Err(NotDir) <==> file && dir in s.inode && !IsDir(s, dir))
            && (r == Err(Exists) <==> file && IsDir(s, dir) && Bound(s, dir, name))
            && (r == Err(NameTooLong) <==> file && IsDir(s, dir) && !Bound(s, dir, name) && |name| > 255)
            && (r.Ok? <==> file && IsDir(s, dir) && !Bound(s, dir, name) && |name| <= 255)
  {
  }

  /** A link changes the target's count and change time and the parent's times. */
  lemma LinkDoes(s: NS, dir: InodeID, name: string, target: InodeID, now: Time)
    requires Link(s, dir, name, target, now).Ok?
    ensures var s' := Link(s, dir, name, target, now).value;
            && target in s.inode && dir in s.inode && dir != target && target in s'.inode && dir in s'.inode
            && s'.inode[target] == s.inode[target].(nlink := if s.inode[target].nlink == 0 then 2 else s.inode[target].nlink + 1, ctime := now)
            && s'.inode[dir] == Touched(s.inode[dir], now) && Elsewhere(s, s', {target, dir})
            && s'.dentry == s.dentry[Slot(dir, name) := target] && s'.graves == s.graves && s'.quota == s.quota && s'.next == s.next
  {
  }

  lemma RemoveRefusedIff(s: NS, dir: InodeID, name: string, at: Time)
    ensures var r := RemoveEntry(s, dir, name, at);
            && (r == Err(NotFound) <==> !Bound(s, dir, name) || s.dentry[Slot(dir, name)] !in s.inode || dir !in s.inode)
            && (r.Ok? <==> r != Err(NotFound))
  {
  }

  /** What was named lost a name, and its parent an entry. */
  ghost predicate Removed(s: NS, s': NS, k: Slot, at: Time) {
    && k in s.dentry && s'.dentry == s.dentry - {k} && s'.next == s.next
    && var id := s.dentry[k];
       && id in s.inode && k.dir in s.inode && id != k.dir && id in s'.inode && k.dir in s'.inode
       && s'.inode[id] == Fewer(s.inode[id], at) && Released(s, s', id, at)
       && s'.inode[k.dir] == (if IsDir(s, id) then Recounted(s.inode[k.dir], -1, at) else Touched(s.inode[k.dir], at))
       && Elsewhere(s, s', {id, k.dir})
  }

  lemma RemoveDoesAt(s: NS, dir: InodeID, name: string, at: Time)
    requires RemoveEntry(s, dir, name, at).Ok? && s.dentry[Slot(dir, name)] != dir && IsDir(s, dir)
    requires s.quota.bytesUsed >= s.inode[s.dentry[Slot(dir, name)]].size && s.quota.inodesUsed >= 1
    ensures Removed(s, RemoveEntry(s, dir, name, at).value, Slot(dir, name), at)
  {
  }

  /** A removal changes the count and change time of what was named, its parent's times, and its parent's count if a directory went. */
  lemma RemoveDoes(s: NS, dir: InodeID, name: string, at: Time)
    requires Inv(s) && RemoveEntry(s, dir, name, at).Ok?
    ensures Removed(s, RemoveEntry(s, dir, name, at).value, Slot(dir, name), at)
  {
    hide RemoveEntry, Removed, Accounting.Balanced;
    RemoveRefusedIff(s, dir, name, at);
    var k := Slot(dir, name);
    assert Anchored(s, k);
    UsedAtLeast(s, k);
    ParentNotWithin(s, k);
    WithinSelf(s.dentry, dir);
    RemoveDoesAt(s, dir, name, at);
  }

  // --- renaming ---------------------------------------------------------------------------------------

  /** Why a rename of a bound name to another slot with an acceptable name is refused. */
  lemma RenameRefusedIff(s: NS, oldDir: InodeID, oldName: string, newDir: InodeID, newName: string, at: Time)
    requires Tree(s)
    ensures var r := Rename(s, oldDir, oldName, newDir, newName, at); var from, to := Slot(oldDir, oldName), Slot(newDir, newName);
            var there := from in s.dentry && IsDir(s, newDir);
            && (from == to ==> r == Ok(s))
            && (from != to && |newName| > 255 ==> r == Err(NameTooLong))
            && (from != to && |newName| <= 255 ==>
                  && (r == Err(NotFound) <==> from !in s.dentry || newDir !in s.inode)
                  && (r == Err(NotDir) <==>
                        || (from in s.dentry && newDir in s.inode && !IsDir(s, newDir))
                        || (there && !MakesCycle(s, from, to) && to in s.dentry && IsDir(s, s.dentry[from]) && !IsDir(s, s.dentry[to])))
                  && (r == Err(InvalidRename) <==> there && MakesCycle(s, from, to))
                  && (r == Err(IsDirectory) <==> there && to in s.dentry && !IsDir(s, s.dentry[from]) && IsDir(s, s.dentry[to]))
                  && (r == Err(NotEmpty) <==>
                        there && !MakesCycle(s, from, to) && to in s.dentry && IsDir(s, s.dentry[from]) && IsDir(s, s.dentry[to]) && HasEntries(s.dentry, s.dentry[to]))
                  && (r.Ok? <==>
                        && there && !MakesCycle(s, from, to)
                        && (to in s.dentry ==> IsDir(s, s.dentry[from]) == IsDir(s, s.dentry[to]) && !(IsDir(s, s.dentry[to]) && HasEntries(s.dentry, s.dentry[to])))))
  {
    hide Tree;
    var from, to := Slot(oldDir, oldName), Slot(newDir, newName);
    if from in s.dentry && from != to && |newName| <= 255 {
      BoundThere(s, from);
      if to in s.dentry {
        BoundThere(s, to);
      }
      if IsDir(s, newDir) {
        var src := s.dentry[from];
        DisplaceErrors(s, s.inode[src], newDir, newName, at);
        var displaced := Displace(s, s.inode[src], newDir, newName, at);
        if displaced.Ok? {
          MoveBindingErrors(displaced.value, src, s.inode[src], from, to, at);
        }
      }
    }
  }

  lemma BoundThere(s: NS, k: Slot)
    requires Tree(s) && k in s.dentry
    ensures s.dentry[k] in s.inode && IsDir(s, k.dir)
  {
    assert Anchored(s, k);
  }

  /** The names apart, the parents' records, and every other record but the moved and the displaced. */
  ghost predicate Reparented(s: NS, s': NS, from: Slot, to: Slot, at: Time)
    requires from in s.dentry
  {
    var isDir := IsDir(s, s.dentry[from]);
    && s'.dentry == (s.dentry - {from})[to := s.dentry[from]] && s'.next == s.next && s'.inode.Keys == s.inode.Keys
    && from.dir in s.inode && to.dir in s.inode
    && (if from.dir == to.dir || !isDir then
          s'.inode[from.dir] == Touched(s.inode[from.dir], at) && s'.inode[to.dir] == Touched(s.inode[to.dir], at)
        else
          s'.inode[from.dir] == Recounted(s.inode[from.dir], -1, at) && s'.inode[to.dir] == Recounted(s.inode[to.dir], 1, at))
    && Elsewhere(s, s', {s.dentry[from], from.dir, to.dir} + if to in s.dentry then {s.dentry[to]} else {})
  }

  /** What became of the inode at the target, when it is another than the moved one. */
  ghost predicate Displaced(s: NS, s': NS, from: Slot, to: Slot, at: Time)
    requires from in s.dentry
  {
    if to in s.dentry && s.dentry[to] != s.dentry[from] then
      && s.dentry[to] in s.inode && s.dentry[to] in s'.inode
      && s'.inode[s.dentry[to]] == Fewer(s.inode[s.dentry[to]], at) && Released(s, s', s.dentry[to], at)
    else s'.graves == s.graves && s'.quota == s.quota
  }

  /**
   A rename changes of the moved inode its change time; of the displaced one, if it is another, what losing a name
   changes; of the two directories their times, and their counts if a directory moved between them.
   */
  lemma RenameDoes(s: NS, oldDir: InodeID, oldName: string, newDir: InodeID, newName: string, at: Time, s': NS)
    requires Inv(s) && Renamed(s, oldDir, oldName, newDir, newName, at, s')
    ensures var from, to := Slot(oldDir, oldName), Slot(newDir, newName);
            && from in s.dentry && Reparented(s, s', from, to, at) && Displaced(s, s', from, to, at)
            && var src := s.dentry[from];
               src in s.inode && src in s'.inode && s'.inode[src] == s.inode[src].(ctime := at)
  {
    hide Tree, Accounting.Balanced, Reparented, Displaced, Released, MoveBinding, Displace, Elsewhere;
    var from, to := Slot(oldDir, oldName), Slot(newDir, newName);
    RenameFacts(s, oldDir, oldName, newDir, newName, at, s');
    var s1 := RenameInSteps(s, oldDir, oldName, newDir, newName, at, s');
    RenameApart(s, from, to, s');
    if to in s.dentry {
      UsedAtLeast(s, to);
      DisplaceDoes(s, s.inode[s.dentry[from]], to, at, s1);
      if s.dentry[to] == s.dentry[from] {
        TwoNamesCounted(s, from, to);
      }
    } else {
      DisplaceNone(s, s.inode[s.dentry[from]], to, at, s1);
    }
    MoveDoes(s1, s.dentry[from], s.inode[s.dentry[from]], from, to, at, s');
    RenameComposes(s, from, to, at, s1, s');
  }

  /** The displacing half followed by the moving half. */
  lemma RenameComposes(s: NS, from: Slot, to: Slot, at: Time, s1: NS, s': NS)
    requires from in s.dentry && s.dentry[from] in s.inode && IsDir(s, from.dir) && IsDir(s, to.dir)
    requires s.dentry[from] != from.dir && s.dentry[from] != to.dir
    requires to in s.dentry ==> s.dentry[to] != from.dir && s.dentry[to] != to.dir && s.dentry[to] in s.inode
    requires to in s.dentry && s.dentry[to] == s.dentry[from] ==> !Last(s.inode[s.dentry[to]])
    requires s1.dentry == s.dentry && s1.next == s.next
    requires if to in s.dentry then s1.inode == s.inode[s.dentry[to] := Fewer(s.inode[s.dentry[to]], at)] && Released(s, s1, s.dentry[to], at) else s1 == s
    requires Moved(s1, s.dentry[from], s.inode[s.dentry[from]], from, to, at, s')
    ensures Reparented(s, s', from, to, at) && Displaced(s, s', from, to, at)
  {
  }

  /** The four inodes a rename writes are different, but for two names of one file or of one directory. */
  lemma RenameApart(s: NS, from: Slot, to: Slot, s': NS)
    requires Tree(s) && RenameEffect(s, from, to, s')
    ensures s.dentry[from] != from.dir && s.dentry[from] != to.dir
    ensures to in s.dentry ==> s.dentry[to] != from.dir && s.dentry[to] != to.dir
  {
    WithinSelf(s.dentry, s.dentry[from]);
    if to in s.dentry {
      ParentNotWithin(s, to);
      WithinSelf(s.dentry, to.dir);
      assert from in s.dentry.Keys;
    }
  }

  /** Two names of one inode are of a file, and counted. */
  lemma TwoNamesCounted(s: NS, from: Slot, to: Slot)
    requires Inv(s) && from in s.dentry && to in s.dentry && from != to && s.dentry[from] == s.dentry[to]
    ensures s.dentry[to] in s.inode && !s.inode[s.dentry[to]].isDir && s.inode[s.dentry[to]].nlink > 1
  {
    hide Tree, Accounting.Balanced;
    var id := s.dentry[to];
    OneNameOfDir(s, from, to);
    VitalAt(s, id);
    CountedAt(Accounting.BookOf(s), id);
    TwoOf(s.dentry, from, to, id);
  }

  lemma OneNameOfDir(s: NS, from: Slot, to: Slot)
    requires Tree(s) && from in s.dentry && to in s.dentry && from != to && s.dentry[from] == s.dentry[to]
    ensures s.dentry[to] in s.inode && !s.inode[s.dentry[to]].isDir
  {
    assert Anchored(s, to);
  }

  lemma CountedAt(b: Accounting.Book, id: InodeID)
    requires Accounting.Balanced(b) && id in b.vitals && !b.vitals[id].isDir
    ensures b.vitals[id].links == |Accounting.Names(b.dentry, id)|
  {
  }

  lemma TwoOf(d: Dentries, from: Slot, to: Slot, id: InodeID)
    requires from in d && to in d && from != to && d[from] == id == d[to]
    ensures |Accounting.Names(d, id)| > 1
  {
    CardAtMost({from, to}, Accounting.Names(d, id));
    assert |{from, to}| == 2;
  }

  lemma CardAtMost<T>(s: set<T>, t: set<T>)
    requires s <= t
    ensures |s| <= |t|
  {
    assert t == s + (t - s);
  }

  lemma DisplaceDoes(s: NS, src: InodeRecord, to: Slot, at: Time, s1: NS)
    requires Displace(s, src, to.dir, to.name, at) == Ok(s1) && to in s.dentry
    requires s.dentry[to] in s.inode && s.quota.bytesUsed >= s.inode[s.dentry[to]].size && s.quota.inodesUsed >= 1
    ensures s1.dentry == s.dentry && s1.next == s.next && s1.inode == s.inode[s.dentry[to] := Fewer(s.inode[s.dentry[to]], at)]
    ensures Released(s, s1, s.dentry[to], at)
  {
  }

  lemma DisplaceNone(s: NS, src: InodeRecord, to: Slot, at: Time, s1: NS)
    requires Displace(s, src, to.dir, to.name, at) == Ok(s1) && to !in s.dentry
    ensures s1 == s
  {
  }

  /** The binding went from one slot to the other, and the record it was read with came along. */
  ghost predicate Moved(s1: NS, src: InodeID, srcRec: InodeRecord, from: Slot, to: Slot, at: Time, s': NS)
    requires from.dir in s1.inode && to.dir in s1.inode
  {
    && s'.dentry == (s1.dentry - {from})[to := src] && s'.next == s1.next && s'.graves == s1.graves && s'.quota == s1.quota
    && src in s'.inode && s'.inode[src] == srcRec.(ctime := at) && from.dir in s'.inode && to.dir in s'.inode
    && (if from.dir == to.dir || !srcRec.isDir then
          s'.inode[from.dir] == Touched(s1.inode[from.dir], at) && s'.inode[to.dir] == Touched(s1.inode[to.dir], at)
        else
          s'.inode[from.dir] == Recounted(s1.inode[from.dir], -1, at) && s'.inode[to.dir] == Recounted(s1.inode[to.dir], 1, at))
    && Elsewhere(s1, s', {src, from.dir, to.dir})
  }

  lemma MoveDoes(s1: NS, src: InodeID, srcRec: InodeRecord, from: Slot, to: Slot, at: Time, s': NS)
    requires MoveBinding(s1, src, srcRec, from, to, at) == Ok(s') && from.dir in s1.inode && to.dir in s1.inode
    requires src != from.dir && src != to.dir && s1.inode[from.dir].isDir && s1.inode[to.dir].isDir
    ensures Moved(s1, src, srcRec, from, to, at, s')
    ensures src in s'.inode && s'.inode[src] == srcRec.(ctime := at)
  {
  }

  // --- attributes -----------------------------------------------------------------------------------

  /** A detached write changes what the file holds and its times, and nothing else anywhere. */
  lemma DetachedDoes(s: NS, id: InodeID, rec: InodeRecord)
    ensures UpdateInodeContent(s, id, rec).Ok? <==> id in s.inode
    ensures UpdateInodeContent(s, id, rec).Err? ==> UpdateInodeContent(s, id, rec) == Err(NotFound)
    ensures id in s.inode ==>
              var s' := UpdateInodeContent(s, id, rec).value;
              && s'.dentry == s.dentry && s'.graves == s.graves && s'.quota == s.quota && s'.next == s.next
              && id in s'.inode && Elsewhere(s, s', {id})
              && var r, r' := s.inode[id], s'.inode[id];
                 && r'.size == rec.size && r'.content == rec.content && r'.mtime == rec.mtime && r'.ctime == rec.mtime && r'.atime == r.atime
                 && r'.isDir == r.isDir && r'.mode == r.mode && r'.uid == r.uid && r'.gid == r.gid && r'.nlink == r.nlink && r'.kind == r.kind
  {
  }

  /**
   Setting attributes changes the fields asked for and the change time, of one record. Only permission bits can be set,
   and giving a file away drops its set-user-ID and set-group-ID bits.
   */
  lemma SetAttrDoes(s: NS, id: InodeID, mut: AttrMutation, now: Time)
    ensures SetAttr(s, id, mut, now).Ok? <==> id in s.inode
    ensures SetAttr(s, id, mut, now).Err? ==> SetAttr(s, id, mut, now) == Err(NotFound)
    ensures id in s.inode ==>
              var s' := SetAttr(s, id, mut, now).value;
              && s'.dentry == s.dentry && s'.graves == s.graves && s'.quota == s.quota && s'.next == s.next
              && id in s'.inode && Elsewhere(s, s', {id})
              && var r, r' := s.inode[id], s'.inode[id];
                 && r'.isDir == r.isDir && r'.size == r.size && r'.nlink == r.nlink && r'.content == r.content && r'.kind == r.kind && r'.ctime == now
                 && (if mut.uid.Some? then r'.uid == mut.uid.value else r'.uid == r.uid)
                 && (if mut.gid.Some? then r'.gid == mut.gid.value else r'.gid == r.gid)
                 && (if mut.mtime.Some? then r'.mtime == mut.mtime.value else r'.mtime == r.mtime)
                 && (if mut.atime.Some? then r'.atime == mut.atime.value else r'.atime == r.atime)
                 && ModeSet(r, r', mut)
  {
    hide ClearSetID;
    if id in s.inode {
      SetIDBits(if mut.mode.Some? then mut.mode.value % 4096 else s.inode[id].mode);
    }
  }

  /** Bit 2048 is set-user-ID and 1024 set-group-ID. */
  ghost predicate ModeSet(r: InodeRecord, r': InodeRecord, mut: AttrMutation) {
    var m := if mut.mode.Some? then mut.mode.value % 4096 else r.mode;
    if (mut.uid.Some? || mut.gid.Some?) && !r.isDir then
      r'.mode / 4096 == m / 4096 && r'.mode / 2048 % 2 == 0 && r'.mode / 1024 % 2 == 0 && r'.mode % 1024 == m % 1024
    else r'.mode == m
  }

  lemma SetIDBits(m: nat)
    ensures var c := ClearSetID(m); c / 4096 == m / 4096 && c / 2048 % 2 == 0 && c / 1024 % 2 == 0 && c % 1024 == m % 1024
  {
    var a, b := m / 4096, m % 1024;
    By4096(a, b);
    By2048(a, b);
    By1024(a, b);
    EvenBits(a, ClearSetID(m) / 2048, ClearSetID(m) / 1024);
  }

  lemma EvenBits(a: nat, x: nat, y: nat)
    requires x == 2 * a && y == 4 * a
    ensures x % 2 == 0 && y % 2 == 0
  {
  }

  lemma By4096(a: nat, b: nat)
    requires b < 1024
    ensures (a * 4096 + b) / 4096 == a
  {
  }

  lemma By2048(a: nat, b: nat)
    requires b < 1024
    ensures (a * 4096 + b) / 2048 == 2 * a
  {
  }

  lemma By1024(a: nat, b: nat)
    requires b < 1024
    ensures (a * 4096 + b) / 1024 == 4 * a && (a * 4096 + b) % 1024 == b
  {
  }

  // --- over histories -----------------------------------------------------------------------------------

  /** What a reader of the inode can tell of it, names, counts and times apart. */
  datatype Persona = Persona(isDir: bool, mode: nat, uid: nat, gid: nat, size: nat, content: Content, kind: Kind)

  function PersonaOf(rec: InodeRecord): Persona {
    Persona(rec.isDir, rec.mode, rec.uid, rec.gid, rec.size, rec.content, rec.kind)
  }

  /** The transactions that are about this inode itself: writing it, setting its attributes, sweeping it. */
  predicate Writes(s: NS, op: Op, id: InodeID) {
    match op
    case OpCommit(dir, name, _, _) => Slot(dir, name) in s.dentry && s.dentry[Slot(dir, name)] == id
    case OpDetached(x, _) => x == id
    case OpSetAttr(x, _, _) => x == id
    case OpReclaim(x) => x == id
    case _ => false
  }

  ghost predicate NeverWrites(s: NS, ops: seq<Op>, id: InodeID)
    decreases |ops|
  {
    ops == [] || (!Writes(s, ops[0], id) && NeverWrites(After(s, ops[0]), ops[1..], id))
  }

  lemma RenameKeepsPersona(s: NS, op: Op, id: InodeID)
    requires op.OpRename? && Inv(s) && Run(s, op).Ok? && id in s.inode
    ensures id in After(s, op).inode && PersonaOf(After(s, op).inode[id]) == PersonaOf(s.inode[id])
  {
    hide Inv, Rename;
    var from, to, s' := Slot(op.oldDir, op.oldName), Slot(op.newDir, op.newName), After(s, op);
    if from == to {
      RenameNowhere(s, op.oldDir, op.oldName, op.at);
    } else {
      RenameDoes(s, op.oldDir, op.oldName, op.newDir, op.newName, op.at, s');
    }
  }

  lemma RenameNowhere(s: NS, dir: InodeID, name: string, at: Time)
    ensures Rename(s, dir, name, dir, name, at) == Ok(s)
  {
  }

  lemma StepKeepsPersona(s: NS, op: Op, id: InodeID)
    requires Inv(s) && id in s.inode && !Writes(s, op, id)
    ensures id in After(s, op).inode && PersonaOf(After(s, op).inode[id]) == PersonaOf(s.inode[id])
  {
    hide Inv, PublishFile, CommitFile, CommitMkdir, Link, RemoveEntry, Rename, UpdateInodeContent, SetAttr;
    if Run(s, op).Ok? {
      match op
      case OpPublish(dir, name, rec, now) => PublishDoes(s, dir, name, rec, now);
      case OpCommit(dir, name, rec, now) => CommitDoes(s, dir, name, rec, now);
      case OpMkdir(dir, name, rec, now) => MkdirDoes(s, dir, name, rec, now);
      case OpLink(dir, name, target, now) => LinkDoes(s, dir, name, target, now);
      case OpRemove(dir, name, at) => RemoveDoes(s, dir, name, at);
      case OpRename(_, _, _, _, _) => RenameKeepsPersona(s, op, id);
      case OpDetached(x, rec) => DetachedDoes(s, x, rec);
      case OpSetAttr(x, mut, now) => SetAttrDoes(s, x, mut, now);
      case OpLimits(_, _) =>
      case OpReclaim(_) =>
      case OpForget(_) =>
    }
  }

  /**
   Over every history: what an inode is and holds changes only by writing to it, setting its attributes or sweeping it.
   Creating, linking, removing and renaming, of it or of anything else, leave content, size, owner and mode alone.
   */
  lemma {:induction false} HistoryKeepsPersona(s: NS, ops: seq<Op>, id: InodeID)
    requires Inv(s) && AllAllowed(s, ops) && id in s.inode && NeverWrites(s, ops, id)
    ensures id in AfterAll(s, ops).inode && PersonaOf(AfterAll(s, ops).inode[id]) == PersonaOf(s.inode[id])
    decreases |ops|
  {
    hide Inv, Allowed, After, Writes;
    if ops != [] {
      StepKeepsInv(s, ops[0]);
      StepKeepsPersona(s, ops[0], id);
      HistoryKeepsPersona(After(s, ops[0]), ops[1..], id);
    }
  }
}
