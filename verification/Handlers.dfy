/**
 Removing a name takes several transactions (pkg/mds/server.go, pkg/repo/write.go): the name is looked up, for a directory
 its record is read and its entries listed, and only then is the entry removed. Other clients may act between any two.
 */
module Handlers {
  import opened Base
  import opened Namespace
  import opened TreeShape
  import opened Accounting
  import opened Histories
  import Transactions
  import W = Witnesses

  /** Unlink of the authority: looked up in `seen`, removed in `s`. */
  function Unlink(seen: NS, s: NS, dir: InodeID, name: string, at: Time): Result<NS, Error> {
    var _ :- Lookup(seen, dir, name);
    RemoveEntry(s, dir, name, at)
  }

  /** Rmdir: looked up in `seen`, its record read in `read`, its entries listed in `listed`, removed in `s`. */
  function Rmdir(seen: NS, read: NS, listed: NS, s: NS, dir: InodeID, name: string, at: Time): Result<NS, Error> {
    var id :- Lookup(seen, dir, name);
    var rec :- GetInode(read, id);
    if !rec.isDir then Err(NotDir)
    else if HasEntries(listed.dentry, id) then Err(NotEmpty)
    else RemoveEntry(s, dir, name, at)
  }

  /** The name leads to the same inode, or to none, in both states. */
  predicate SameName(seen: NS, s: NS, k: Slot) {
    (k in seen.dentry <==> k in s.dentry) && (k in s.dentry ==> seen.dentry[k] == s.dentry[k])
  }

  // --- what goes ---------------------------------------------------------------------------------

  /** A file that has a name counts at least one. */
  lemma NamedCounts(s: NS, k: Slot)
    requires Inv(s) && k in s.dentry && s.dentry[k] in s.inode && !s.inode[s.dentry[k]].isDir
    ensures s.inode[s.dentry[k]].nlink > 0
  {
    VitalAt(s, s.dentry[k]);
    assert k in Names(s.dentry, s.dentry[k]);
  }

  /**
   A removal that succeeds takes the name from whatever it leads to then, whatever was seen before. A file's record
   changes by it; so does a directory's, unless it has no links and this change time already.
   */
  lemma RemovalTakes(s: NS, dir: InodeID, name: string, at: Time)
    requires Inv(s) && RemoveEntry(s, dir, name, at).Ok?
    ensures var s', k := RemoveEntry(s, dir, name, at).value, Slot(dir, name);
            && Transactions.Removed(s, s', k, at)
            && (s'.inode[s.dentry[k]] != s.inode[s.dentry[k]] <==> s.inode[s.dentry[k]].nlink > 0 || s.inode[s.dentry[k]].ctime != at)
            && (!s.inode[s.dentry[k]].isDir ==> s.inode[s.dentry[k]].nlink > 0)
  {
    hide Inv, RemoveEntry;
    Transactions.RemoveDoes(s, dir, name, at);
    if !s.inode[s.dentry[Slot(dir, name)]].isDir {
      NamedCounts(s, Slot(dir, name));
    }
  }

  /** An Rmdir that succeeds found a directory without entries, and then removes what the name leads to by then. */
  lemma RmdirTakes(seen: NS, read: NS, listed: NS, s: NS, dir: InodeID, name: string, at: Time)
    requires Inv(s) && Rmdir(seen, read, listed, s, dir, name, at).Ok?
    ensures var s', k := Rmdir(seen, read, listed, s, dir, name, at).value, Slot(dir, name);
            && k in seen.dentry && IsDir(read, seen.dentry[k]) && !HasEntries(listed.dentry, seen.dentry[k])
            && Transactions.Removed(s, s', k, at)
  {
    hide Inv, RemoveEntry;
    Transactions.RemoveDoes(s, dir, name, at);
  }

  /**
   An Rmdir keeps the tree exactly if what the name leads to when it is removed has no entries then. The listing that
   was made before does not decide it.
   */
  lemma RmdirTreeIff(seen: NS, read: NS, listed: NS, s: NS, dir: InodeID, name: string, at: Time)
    requires Inv(s) && Rmdir(seen, read, listed, s, dir, name, at).Ok?
    ensures Slot(dir, name) in s.dentry
    ensures Tree(Rmdir(seen, read, listed, s, dir, name, at).value) <==> !HasEntries(s.dentry, s.dentry[Slot(dir, name)])
  {
    hide Inv, Tree, RemoveEntry;
    Transactions.RemoveDoes(s, dir, name, at);
    RemoveTreeIff(s, dir, name, at);
  }

  /** So it is safe if in the meantime nobody rebound the name or put an entry in the directory. */
  lemma RmdirUndisturbed(seen: NS, read: NS, listed: NS, s: NS, dir: InodeID, name: string, at: Time)
    requires Inv(s) && Rmdir(seen, read, listed, s, dir, name, at).Ok? && SameName(seen, s, Slot(dir, name))
    requires HasEntries(s.dentry, seen.dentry[Slot(dir, name)]) ==> HasEntries(listed.dentry, seen.dentry[Slot(dir, name)])
    ensures Inv(Rmdir(seen, read, listed, s, dir, name, at).value)
  {
    hide Inv, RemoveEntry;
    RemoveKeepsInv(s, OpRemove(dir, name, at));
  }

  /** Exactly when an Rmdir is refused, and why. */
  lemma RmdirRefusedIff(seen: NS, read: NS, listed: NS, s: NS, dir: InodeID, name: string, at: Time)
    requires Inv(s)
    ensures var r, k := Rmdir(seen, read, listed, s, dir, name, at), Slot(dir, name);
            if k !in seen.dentry || seen.dentry[k] !in read.inode then r == Err(NotFound)
            else if !read.inode[seen.dentry[k]].isDir then r == Err(NotDir)
            else if exists j: Slot :: j in listed.dentry && j.dir == seen.dentry[k] then r == Err(NotEmpty)
            else r.Err? <==> k !in s.dentry
  {
    hide Inv, RemoveEntry;
    Transactions.RemoveRefusedIff(s, dir, name, at);
    RemovableIff(s, dir, name, at);
  }

  /** Of a tree every name can be removed. */
  lemma RemovableIff(s: NS, dir: InodeID, name: string, at: Time)
    requires Inv(s)
    ensures RemoveEntry(s, dir, name, at).Ok? <==> Slot(dir, name) in s.dentry
  {
    hide RemoveEntry, Balanced;
    Transactions.RemoveRefusedIff(s, dir, name, at);
    if Slot(dir, name) in s.dentry {
      assert Anchored(s, Slot(dir, name));
    }
  }

  /** An Unlink succeeds exactly if the name is bound both times, and then takes it from what it leads to the second time. */
  lemma UnlinkTakes(seen: NS, s: NS, dir: InodeID, name: string, at: Time)
    requires Inv(s)
    ensures var r, k := Unlink(seen, s, dir, name, at), Slot(dir, name);
            && (r.Ok? <==> k in seen.dentry && k in s.dentry) && (r.Err? ==> r.error == NotFound)
            && (r.Ok? ==> Transactions.Removed(s, r.value, k, at) && (Tree(r.value) <==> !HasEntries(s.dentry, s.dentry[k])))
  {
    hide Inv, Tree, RemoveEntry, Transactions.Removed;
    RemovableIff(s, dir, name, at);
    Transactions.RemoveRefusedIff(s, dir, name, at);
    if RemoveEntry(s, dir, name, at).Ok? {
      Transactions.RemoveDoes(s, dir, name, at);
      RemoveTreeIff(s, dir, name, at);
    }
  }

  // --- where the two states differ -----------------------------------------------------------------

  /** The directory is found empty, a file is put into it, and the Rmdir goes on: the file is off the tree. */
  lemma RmdirCutsOff()
    ensures W.Reachable(W.NESTED) && W.Reachable(W.FILLED) && Run(W.NESTED, OpCommit(2, "x", W.FILE, 0)) == Ok(W.FILLED)
    ensures var r := Rmdir(W.NESTED, W.NESTED, W.NESTED, W.FILLED, ROOT, "a", 0); r.Ok? && !Tree(r.value)
  {
    W.NestedReachable();
    W.FilledIs();
    W.FilledReachable();
    W.RemoveCutsOff();
    assert !HasEntries(W.NESTED.dentry, 2);
  }

  /** The name passes to a file after the listing, and the Rmdir removes the file. */
  lemma RmdirTakesFile()
    ensures W.Reachable(W.NESTED) && RemoveEntry(W.NESTED, ROOT, "a", 0) == Ok(W.REMOVED)
    ensures CommitFile(W.REMOVED, ROOT, "a", W.FILE, 0) == Ok(W.TAKEN)
    ensures var r := Rmdir(W.NESTED, W.NESTED, W.NESTED, W.TAKEN, ROOT, "a", 0);
            r.Ok? && W.TAKEN.inode[3] == W.FILE && 3 in r.value.inode && r.value.inode[3].nlink == 0 && W.A !in r.value.dentry
  {
    W.NestedReachable();
    W.RemovedIs();
    W.TakenIs();
    assert !HasEntries(W.NESTED.dentry, 2);
  }

  /** The name passes to another file between the lookup and the removal, and that file loses it. */
  lemma UnlinkTakesOther()
    ensures W.Reachable(W.NAMED) && RemoveEntry(W.NAMED, ROOT, "a", 0) == Ok(W.UNLINKED)
    ensures CommitFile(W.UNLINKED, ROOT, "a", W.FILE, 0) == Ok(W.REUSED) && W.Reachable(W.REUSED)
    ensures var r := Unlink(W.NAMED, W.REUSED, ROOT, "a", 0);
            && r.Ok? && W.NAMED.dentry[W.A] == 2 && r.value.inode.Keys == {ROOT, 2, 3}
            && r.value.inode[2] == W.REUSED.inode[2] && r.value.inode[3] == W.FILE.(nlink := 0)
  {
    W.NamedReachable();
    W.UnlinkedIs();
    W.ReusedIs();
    W.ReusedReachable();
    assert W.REUSED.inode.Keys == {ROOT, 2, 3};
  }
}
