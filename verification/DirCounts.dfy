/** A directory's own link count, which find(1) reads as two plus the number of its subdirectories. */
module DirCounts {
  import opened Base
  import opened Namespace
  import opened TreeShape
  import opened Accounting
  import opened Histories

  type Links = map<InodeID, int>

  /** The directories and their counts. */
  ghost function LinksOf(inode: map<InodeID, InodeRecord>): Links {
    map id | id in inode && inode[id].isDir :: inode[id].nlink
  }

  ghost function Subdirs(d: Dentries, dirs: set<InodeID>, dir: InodeID): set<Slot> {
    set k | k in d && k.dir == dir && d[k] in dirs
  }

  ghost predicate CountedAt(d: Dentries, links: Links, dir: InodeID) {
    dir in links && (dir == ROOT || Named(d, dir)) ==> links[dir] == 2 + |Subdirs(d, links.Keys, dir)|
  }

  ghost predicate AllCounted(d: Dentries, links: Links) {
    forall dir :: CountedAt(d, links, dir)
  }

  ghost predicate DirCounted(s: NS) {
    AllCounted(s.dentry, LinksOf(s.inode))
  }

  /** One directory's count moves, never below two. */
  function Adjust(links: Links, dir: InodeID, delta: int): Links
    requires dir in links
  {
    links[dir := if links[dir] + delta < 2 then 2 else links[dir] + delta]
  }

  // --- what the pieces of a transaction do to the counts -----------------------------

  lemma PutLinks(inode: map<InodeID, InodeRecord>, id: InodeID, rec: InodeRecord)
    ensures LinksOf(inode[id := rec]) == if rec.isDir then LinksOf(inode)[id := rec.nlink] else LinksOf(inode) - {id}
  {
  }

  lemma TouchKeepsLinks(s: NS, dir: InodeID, at: Time)
    requires TouchDir(s, dir, at).Ok?
    ensures LinksOf(TouchDir(s, dir, at).value.inode) == LinksOf(s.inode)
  {
    PutLinks(s.inode, dir, s.inode[dir].(mtime := at, ctime := at));
  }

  lemma AdjustLinks(s: NS, dir: InodeID, delta: int)
    requires dir in LinksOf(s.inode)
    ensures AdjustDirLinks(s, dir, delta).Ok?
    ensures LinksOf(AdjustDirLinks(s, dir, delta).value.inode)
            == Adjust(LinksOf(s.inode), dir, delta)
  {
    PutLinks(s.inode, dir, AdjustDirLinks(s, dir, delta).value.inode[dir]);
  }

  lemma DropLinkLinks(s: NS, id: InodeID, rec: InodeRecord, at: Time)
    requires id in s.inode && s.inode[id].isDir == rec.isDir
    ensures DropLink(s, id, rec, at).Ok?
    ensures LinksOf(DropLink(s, id, rec, at).value.inode)
            == if rec.isDir then LinksOf(s.inode)[id := 0] else LinksOf(s.inode)
  {
    PutLinks(s.inode, id, rec.(nlink := 0, ctime := at));
    if rec.nlink > 1 {
      PutLinks(s.inode, id, rec.(nlink := rec.nlink - 1, ctime := at));
    }
  }

  // --- mkdir and rmdir ---------------------------------------------------------------

  lemma MkdirLinks(s: NS, dir: InodeID, name: string, rec: InodeRecord, now: Time)
    requires rec.isDir && CommitMkdir(s, dir, name, rec, now).Ok? && s.next + 1 !in s.inode
    ensures dir in LinksOf(s.inode)
    ensures LinksOf(CommitMkdir(s, dir, name, rec, now).value.inode)
            == Adjust(LinksOf(s.inode)[s.next + 1 := rec.nlink], dir, 1)
  {
    var id := s.next + 1;
    var s0 := PutInode(s, id, rec).(quota := ApplyQuota(s.quota, 0, 1).value, next := id);
    PutLinks(s.inode, id, rec);
    TouchKeepsLinks(s0, dir, now);
    var s1 := SetDentry(s0, dir, name, id, now).value;
    assert LinksOf(s1.inode) == LinksOf(s.inode)[id := rec.nlink];
    assert dir in LinksOf(s1.inode) by {
      assert s.inode[dir].isDir;
    }
    AdjustLinks(s1, dir, 1);
  }

  lemma MkdirCounts(s: NS, dir: InodeID, name: string, rec: InodeRecord, now: Time)
    requires Inv(s) && DirCounted(s) && DirRecord(rec) && rec.nlink == 2
    requires LiveDir(s, dir) && CommitMkdir(s, dir, name, rec, now).Ok?
    ensures DirCounted(CommitMkdir(s, dir, name, rec, now).value)
  {
    NewDirIsEmpty(s);
    MkdirCountsFresh(s, dir, name, rec, now);
  }

  lemma NewDirIsEmpty(s: NS)
    requires Inv(s)
    ensures var id := s.next + 1; id !in s.inode && !Named(s.dentry, id) && !HasEntries(s.dentry, id)
  {
    FreshInode(s);
    FilesHoldNothing(s, s.next + 1);
  }

  lemma MkdirDentries(s: NS, dir: InodeID, name: string, rec: InodeRecord, now: Time)
    requires CommitMkdir(s, dir, name, rec, now).Ok?
    ensures CommitMkdir(s, dir, name, rec, now).value.dentry == s.dentry[Slot(dir, name) := s.next + 1]
  {
  }

  lemma MkdirCountsFresh(s: NS, dir: InodeID, name: string, rec: InodeRecord, now: Time)
    requires DirCounted(s) && rec.isDir && rec.nlink == 2 && LiveDir(s, dir) && CommitMkdir(s, dir, name, rec, now).Ok?
    requires var id := s.next + 1; id !in s.inode && !Named(s.dentry, id) && !HasEntries(s.dentry, id)
    ensures DirCounted(CommitMkdir(s, dir, name, rec, now).value)
  {
    var s' := CommitMkdir(s, dir, name, rec, now).value;
    MkdirDentries(s, dir, name, rec, now);
    MkdirLinks(s, dir, name, rec, now);
    forall x ensures CountedAt(s'.dentry, LinksOf(s'.inode), x) {
      assert CountedAt(s.dentry, LinksOf(s.inode), x) && CountedAt(s.dentry, LinksOf(s.inode), dir);
      AddedSubdirCounted(s.dentry, LinksOf(s.inode), Slot(dir, name), s.next + 1, x);
    }
  }

  lemma AddedSubdirCounted(d: Dentries, links: Links, k: Slot, id: InodeID, x: InodeID)
    requires CountedAt(d, links, k.dir) && CountedAt(d, links, x)
    requires k !in d && k.dir in links && (k.dir == ROOT || Named(d, k.dir))
    requires id !in links && !Named(d, id) && !HasEntries(d, id)
    ensures CountedAt(d[k := id], Adjust(links[id := 2], k.dir, 1), x)
  {
    AddedSubdirs(d, links.Keys, k, id, x);
    assert Adjust(links[id := 2], k.dir, 1).Keys == links.Keys + {id};
    if x != id && Named(d[k := id], x) {
      var j :| j in d[k := id] && d[k := id][j] == x;
      assert j in d && d[j] == x;
    }
  }

  lemma AddedSubdirs(d: Dentries, dirs: set<InodeID>, k: Slot, id: InodeID, x: InodeID)
    requires k !in d && id !in dirs && !Named(d, id) && !HasEntries(d, id) && k.dir in dirs
    ensures var now := Subdirs(d[k := id], dirs + {id}, x);
            |now| == if x == id then 0 else |Subdirs(d, dirs, x)| + if x == k.dir then 1 else 0
  {
    var before, now := Subdirs(d, dirs, x), Subdirs(d[k := id], dirs + {id}, x);
    if x == id {
      assert forall j :: j in d.Keys ==> j.dir != id;
      assert now == {};
    } else if x == k.dir {
      CardAdd(before, now, k);
    } else {
      assert now == before;
    }
  }

  lemma CardAdd<T>(s: set<T>, t: set<T>, x: T)
    requires x !in s && t == s + {x}
    ensures |t| == |s| + 1
  {
  }

  lemma RmdirLinks(s: NS, dir: InodeID, name: string, at: Time)
    requires RemoveEntry(s, dir, name, at).Ok? && IsDir(s, s.dentry[Slot(dir, name)]) && IsDir(s, dir)
    ensures dir in LinksOf(s.inode)
    ensures LinksOf(RemoveEntry(s, dir, name, at).value.inode)
            == Adjust(LinksOf(s.inode), dir, -1)[s.dentry[Slot(dir, name)] := 0]
  {
    var k := Slot(dir, name);
    var id := s.dentry[k];
    var s0 := s.(dentry := s.dentry - {k});
    TouchKeepsLinks(s0, dir, at);
    var s1 := TouchDir(s0, dir, at).value;
    AdjustLinks(s1, dir, -1);
    DropLinkLinks(AdjustDirLinks(s1, dir, -1).value, id, s.inode[id], at);
  }

  lemma RmdirCounts(s: NS, dir: InodeID, name: string, at: Time)
    requires Inv(s) && DirCounted(s) && RemoveEntry(s, dir, name, at).Ok?
    requires IsDir(s, s.dentry[Slot(dir, name)]) && !HasEntries(s.dentry, s.dentry[Slot(dir, name)])
    ensures DirCounted(RemoveEntry(s, dir, name, at).value)
  {
    var k := Slot(dir, name);
    var s' := RemoveEntry(s, dir, name, at).value;
    assert Anchored(s, k);
    assert s.dentry[k] != k.dir by {
      ParentNotWithin(s, k);
      WithinSelf(s.dentry, k.dir);
    }
    RmdirLinks(s, dir, name, at);
    RemoveBooks(s, dir, name, at);
    assert !Named(s'.dentry, s.dentry[k]) by {
      VitalAt(s, s.dentry[k]);
      LastName(BookOf(s), k);
      NamesOfUnbound(BookOf(s), k, s.dentry[k]);
    }
    forall x ensures CountedAt(s'.dentry, LinksOf(s'.inode), x) {
      DroppedSubdirCounted(s.dentry, LinksOf(s.inode), k, x);
    }
  }

  lemma DroppedSubdirCounted(d: Dentries, links: Links, k: Slot, x: InodeID)
    requires AllCounted(d, links) && k in d && d[k] in links && k.dir in links && (k.dir == ROOT || Named(d, k.dir))
    requires !Named(d - {k}, d[k]) && d[k] != ROOT && d[k] != k.dir
    ensures CountedAt(d - {k}, Adjust(links, k.dir, -1)[d[k] := 0], x)
  {
    assert CountedAt(d, links, k.dir) && CountedAt(d, links, x);
    assert Adjust(links, k.dir, -1)[d[k] := 0].Keys == links.Keys;
    assert k in Subdirs(d, links.Keys, k.dir);
    if x == k.dir {
      assert Subdirs(d - {k}, links.Keys, x) == Subdirs(d, links.Keys, x) - {k};
    } else {
      assert Subdirs(d - {k}, links.Keys, x) == Subdirs(d, links.Keys, x);
      assert Named(d - {k}, x) ==> Named(d, x);
    }
  }

  // --- rename --------------------------------------------------------------------------

  /** The counts after a rename of a directory: the displaced one zeroed, the parents adjusted if they differ. */
  ghost function MovedLinks(links: Links, displaced: Option<InodeID>, oldDir: InodeID, newDir: InodeID): Links
    requires oldDir in links && newDir in links
  {
    var l1 := if displaced.Some? then links[displaced.value := 0] else links;
    if oldDir == newDir then l1 else Adjust(Adjust(l1, oldDir, -1), newDir, 1)
  }

  lemma MoveDirLinksLinks(s: NS, oldDir: InodeID, newDir: InodeID)
    requires MoveDirLinks(s, true, oldDir, newDir).Ok? && oldDir in LinksOf(s.inode) && newDir in LinksOf(s.inode)
    ensures LinksOf(MoveDirLinks(s, true, oldDir, newDir).value.inode) == MovedLinks(LinksOf(s.inode), None, oldDir, newDir)
  {
    if oldDir != newDir {
      AdjustLinks(s, oldDir, -1);
      AdjustLinks(AdjustDirLinks(s, oldDir, -1).value, newDir, 1);
    }
  }

  lemma MoveBindingLinks(s: NS, src: InodeID, srcRec: InodeRecord, from: Slot, to: Slot, at: Time)
    requires MoveBinding(s, src, srcRec, from, to, at).Ok?
    requires from.dir in LinksOf(s.inode) && to.dir in LinksOf(s.inode) && src != from.dir && src != to.dir
    requires srcRec.isDir && src in LinksOf(s.inode) && LinksOf(s.inode)[src] == srcRec.nlink
    ensures LinksOf(MoveBinding(s, src, srcRec, from, to, at).value.inode)
            == MovedLinks(LinksOf(s.inode), None, from.dir, to.dir)
  {
    var s0 := s.(dentry := s.dentry - {from});
    TouchKeepsLinks(s0, from.dir, at);
    var s1 := TouchDir(s0, from.dir, at).value;
    MoveDirLinksLinks(s1, from.dir, to.dir);
    var s2 := MoveDirLinks(s1, true, from.dir, to.dir).value;
    PutLinks(s2.inode, src, srcRec.(ctime := at));
    TouchKeepsLinks(PutInode(s2, src, srcRec.(ctime := at)), to.dir, at);
    assert LinksOf(s2.inode)[src := srcRec.nlink] == LinksOf(s2.inode);
  }

  lemma DisplaceLinks(s: NS, src: InodeRecord, newDir: InodeID, newName: string, at: Time)
    requires Displace(s, src, newDir, newName, at).Ok? && src.isDir
    ensures var s1, to := Displace(s, src, newDir, newName, at).value, Slot(newDir, newName);
            LinksOf(s1.inode) == if to in s.dentry then LinksOf(s.inode)[s.dentry[to] := 0] else LinksOf(s.inode)
  {
    if Slot(newDir, newName) in s.dentry {
      var dst := s.dentry[Slot(newDir, newName)];
      DropLinkLinks(s, dst, s.inode[dst], at);
    }
  }

  /**
   Renaming a directory onto an empty one takes a subdirectory away from the target's parent without lowering
   its count, so there the counts stay right exactly when no directory is displaced.
   */
  lemma RenameDirCountsIff(s: NS, oldDir: InodeID, oldName: string, newDir: InodeID, newName: string, at: Time, s': NS)
    requires Inv(s) && DirCounted(s) && LiveDir(s, newDir) && Renamed(s, oldDir, oldName, newDir, newName, at, s')
    requires IsDir(s, s.dentry[Slot(oldDir, oldName)])
    ensures DirCounted(s') <==> Slot(newDir, newName) !in s.dentry
  {
    var from, to := Slot(oldDir, oldName), Slot(newDir, newName);
    RenameFacts(s, oldDir, oldName, newDir, newName, at, s');
    var s1 := RenameInSteps(s, oldDir, oldName, newDir, newName, at, s');
    WithinSelf(s.dentry, s.dentry[from]);
    StepsLinks(s, from, to, at, s1, s');
    assert Anchored(s, from);
    if to in s.dentry {
      assert Anchored(s, to);
      RenameKeepsTree(s, oldDir, oldName, newDir, newName, at, s');
      assert Anchored(s', to);
      assert s.dentry[to] != newDir && s.dentry[to] != oldDir by {
        ParentNotWithin(s, to);
        WithinSelf(s.dentry, newDir);
        assert from in s.dentry.Keys;
      }
      OverwrittenMiscounted(s.dentry, LinksOf(s.inode), from, to);
    } else {
      forall x ensures CountedAt(s'.dentry, LinksOf(s'.inode), x) {
        MovedSubdirCounted(s.dentry, LinksOf(s.inode), from, to, x);
      }
    }
  }

  lemma StepsLinks(s: NS, from: Slot, to: Slot, at: Time, s1: NS, s': NS)
    requires RenameSteps(s, from, to, at, s1, s') && IsDir(s, s.dentry[from]) && !SameInode(s, from, to)
    requires IsDir(s, from.dir) && IsDir(s, to.dir) && s.dentry[from] != from.dir && s.dentry[from] != to.dir
    ensures from.dir in LinksOf(s.inode) && to.dir in LinksOf(s.inode)
    ensures LinksOf(s'.inode)
            == MovedLinks(LinksOf(s.inode), if to in s.dentry then Some(s.dentry[to]) else None, from.dir, to.dir)
  {
    DisplaceLinks(s, s.inode[s.dentry[from]], to.dir, to.name, at);
    MoveBindingLinks(s1, s.dentry[from], s.inode[s.dentry[from]], from, to, at);
  }

  lemma MovedSubdirCounted(d: Dentries, links: Links, from: Slot, to: Slot, x: InodeID)
    requires CountedAt(d, links, from.dir) && CountedAt(d, links, to.dir) && CountedAt(d, links, x)
    requires from in d && to !in d && d[from] in links && from.dir in links && to.dir in links
    requires (to.dir == ROOT || Named(d, to.dir)) && (from.dir == ROOT || Named(d, from.dir))
    ensures CountedAt((d - {from})[to := d[from]], MovedLinks(links, None, from.dir, to.dir), x)
  {
    var d', dirs := (d - {from})[to := d[from]], links.Keys;
    assert MovedLinks(links, None, from.dir, to.dir).Keys == dirs;
    MovedSubdirs(d, dirs, from, to, x);
    MovedSubdirs(d, dirs, from, to, from.dir);
    if Named(d', x) {
      var j :| j in d' && d'[j] == x;
      assert d[if j == to then from else j] == x;
    }
  }

  lemma MovedSubdirs(d: Dentries, dirs: set<InodeID>, from: Slot, to: Slot, x: InodeID)
    requires from in d && to !in d && d[from] in dirs
    ensures var d' := (d - {from})[to := d[from]];
            |Subdirs(d', dirs, x)| == |Subdirs(d, dirs, x)| - (if x == from.dir then 1 else 0) + (if x == to.dir then 1 else 0)
  {
    SubdirsDrop(d, dirs, from, x);
    SubdirsPut(d - {from}, dirs, to, d[from], x);
  }

  lemma SubdirsDrop(d: Dentries, dirs: set<InodeID>, k: Slot, x: InodeID)
    requires k in d && d[k] in dirs
    ensures |Subdirs(d - {k}, dirs, x)| == |Subdirs(d, dirs, x)| - if x == k.dir then 1 else 0
  {
    if x == k.dir {
      CardAdd(Subdirs(d - {k}, dirs, x), Subdirs(d, dirs, x), k);
    } else {
      assert Subdirs(d - {k}, dirs, x) == Subdirs(d, dirs, x);
    }
  }

  lemma SubdirsPut(d: Dentries, dirs: set<InodeID>, k: Slot, id: InodeID, x: InodeID)
    requires k !in d && id in dirs
    ensures |Subdirs(d[k := id], dirs, x)| == |Subdirs(d, dirs, x)| + if x == k.dir then 1 else 0
  {
    var d' := d[k := id];
    assert d' - {k} == d;
    SubdirsDrop(d', dirs, k, x);
  }

  lemma OverwrittenMiscounted(d: Dentries, links: Links, from: Slot, to: Slot)
    requires AllCounted(d, links) && from in d && to in d && from != to && d[from] in links && d[to] in links
    requires from.dir in links && to.dir in links && d[to] != from.dir && d[to] != to.dir
    requires to.dir == ROOT || (Named(d, to.dir) && Named((d - {from})[to := d[from]], to.dir))
    ensures !AllCounted((d - {from})[to := d[from]], MovedLinks(links, Some(d[to]), from.dir, to.dir))
  {
    var d' := (d - {from})[to := d[from]];
    var links' := MovedLinks(links, Some(d[to]), from.dir, to.dir);
    assert links'.Keys == links.Keys;
    assert CountedAt(d, links, to.dir);
    var lost := if from.dir == to.dir then {from} else {};
    assert Subdirs(d', links.Keys, to.dir) == Subdirs(d, links.Keys, to.dir) - lost;
    assert from.dir == to.dir ==> from in Subdirs(d, links.Keys, to.dir);
    assert !CountedAt(d', links', to.dir);
  }
}
