/**
 The bbolt-backed store itself: buckets updated in place, one transaction per method, and everything a failing
 transaction wrote rolled back. Each method is proved to be the corresponding function of module Namespace.
 */
module MetaDB {
  import opened Base
  import NS = Namespace
  import opened TreeShape
  import opened Histories
  import Accounting
  import Transactions

  type State = NS.NS
  type InodeID = NS.InodeID
  type Rec = NS.InodeRecord
  type Error = NS.Error

  /** A piece of a transaction: it reports the specified error, or leaves the specified state. */
  ghost predicate Ran(spec: Result<State, Error>, err: Option<Error>, after: State) {
    match spec case Ok(s) => err.None? && after == s case Err(e) => err == Some(e)
  }

  /** A whole transaction: on an error the state is the one it started from. */
  ghost predicate Committed(spec: Result<State, Error>, before: State, err: Option<Error>, after: State) {
    Ran(spec, err, after) && (spec.Err? ==> after == before)
  }

  class DB {
    var dentry: NS.Dentries
    var inode: map<InodeID, Rec>
    var graves: set<NS.Grave>
    var quota: NS.Quota
    var next: nat

    function View(): State
      reads this
    {
      NS.NS(dentry, inode, graves, quota, next)
    }

    constructor (rootRec: Rec)
      requires rootRec.isDir
      ensures View() == Fresh(rootRec) && Inv(View())
    {
      dentry, inode, graves, quota, next := map[], map[NS.ROOT := rootRec], {}, NS.Quota(0, 0, 0, 0), NS.ROOT;
      new;
      FreshInv(rootRec);
    }

    method Rollback(s: State)
      modifies this
      ensures View() == s
    {
      dentry, inode, graves, quota, next := s.dentry, s.inode, s.graves, s.quota, s.next;
    }

    // --- pieces ------------------------------------------------------------------

    method PutInode(id: InodeID, rec: Rec)
      modifies this`inode
      ensures View() == NS.PutInode(old(View()), id, rec)
    {
      inode := inode[id := rec];
    }

    method TouchDir(dir: InodeID, now: Time) returns (err: Option<Error>)
      modifies this`inode
      ensures Ran(NS.TouchDir(old(View()), dir, now), err, View())
    {
      if dir !in inode { return Some(NS.NotFound); }
      PutInode(dir, inode[dir].(mtime := now, ctime := now));
      return None;
    }

    method AdjustDirLinks(dir: InodeID, delta: int) returns (err: Option<Error>)
      modifies this`inode
      ensures Ran(NS.AdjustDirLinks(old(View()), dir, delta), err, View())
    {
      if dir !in inode { return Some(NS.NotFound); }
      var rec := inode[dir];
      if rec.isDir {
        var n := rec.nlink + delta;
        if n < 2 {
          n := 2;
        }
        PutInode(dir, rec.(nlink := n));
      }
      return None;
    }

    method SetDentry(dir: InodeID, name: string, child: InodeID, now: Time) returns (err: Option<Error>)
      modifies this`inode, this`dentry
      ensures Ran(NS.SetDentry(old(View()), dir, name, child, now), err, View())
    {
      if |name| > NS.MAX_NAME_LEN { return Some(NS.NameTooLong); }
      err := TouchDir(dir, now);
      if err.None? {
        dentry := dentry[NS.Slot(dir, name) := child];
      }
    }

    method ApplyQuotaDelta(byteDelta: int, inodeDelta: int) returns (err: Option<Error>)
      modifies this`quota
      ensures match NS.ApplyQuota(old(quota), byteDelta, inodeDelta)
              case Ok(q) => err.None? && quota == q
              case Err(e) => err == Some(e) && quota == old(quota)
    {
      if NS.OverQuota(quota, byteDelta, inodeDelta) { return Some(NS.QuotaExceeded); }
      quota := quota.(bytesUsed := NS.AddDelta(quota.bytesUsed, byteDelta));
      quota := quota.(inodesUsed := NS.AddDelta(quota.inodesUsed, inodeDelta));
      return None;
    }

    method DropLink(id: InodeID, rec: Rec, at: Time) returns (err: Option<Error>)
      modifies this`inode, this`quota, this`graves
      ensures Ran(NS.DropLink(old(View()), id, rec, at), err, View())
    {
      if !rec.isDir && rec.nlink > 1 {
        PutInode(id, rec.(nlink := rec.nlink - 1, ctime := at));
        return None;
      }
      err := ApplyQuotaDelta(0 - rec.size, -1);
      if err.None? {
        PutInode(id, rec.(nlink := 0, ctime := at));
        graves := graves + {NS.Grave(at, id)};
      }
    }

    // --- transactions --------------------------------------------------------------

    method RemoveEntry(dir: InodeID, name: string, at: Time) returns (err: Option<Error>)
      modifies this
      ensures Committed(NS.RemoveEntry(old(View()), dir, name, at), old(View()), err, View())
    {
      var k := NS.Slot(dir, name);
      if k !in dentry || dentry[k] !in inode { return Some(NS.NotFound); }
      var before := View();
      var id := dentry[k];
      var rec := inode[id];
      dentry := dentry - {k};
      err := TouchDir(dir, at);
      if err.None? && rec.isDir {
        err := AdjustDirLinks(dir, -1);
      }
      if err.None? {
        err := DropLink(id, rec, at);
      }
      if err.Some? {
        Rollback(before);
      }
    }

    method Link(dir: InodeID, name: string, target: InodeID, now: Time) returns (err: Option<Error>)
      modifies this
      ensures Committed(NS.Link(old(View()), dir, name, target, now), old(View()), err, View())
    {
      if target !in inode { return Some(NS.NotFound); }
      var rec := inode[target];
      if rec.isDir { return Some(NS.IsDirectory); }
      if dir !in inode { return Some(NS.NotFound); }
      if !inode[dir].isDir { return Some(NS.NotDir); }
      if NS.Slot(dir, name) in dentry { return Some(NS.Exists); }
      var before := View();
      if rec.nlink == 0 {
        rec := rec.(nlink := 1);
      }
      PutInode(target, rec.(nlink := rec.nlink + 1, ctime := now));
      err := SetDentry(dir, name, target, now);
      if err.Some? {
        Rollback(before);
      }
    }

    method AllocInode() returns (id: InodeID)
      modifies this`next
      ensures id == next == old(next) + 1
    {
      next := next + 1;
      id := next;
    }

    method PublishFile(dir: InodeID, name: string, rec: Rec, now: Time) returns (id: InodeID, err: Option<Error>)
      modifies this
      ensures Committed(NS.PublishFile(old(View()), dir, name, rec, now), old(View()), err, View())
      ensures err.None? ==> dentry[NS.Slot(dir, name)] == id
    {
      id := 0;
      if dir !in inode { return id, Some(NS.NotFound); }
      if !inode[dir].isDir { return id, Some(NS.NotDir); }
      if NS.Slot(dir, name) in dentry { return id, Some(NS.Exists); }
      var before := View();
      id := AllocInode();
      err := ApplyQuotaDelta(rec.size, 1);
      if err.None? {
        PutInode(id, rec);
        err := SetDentry(dir, name, id, now);
      }
      if err.Some? {
        Rollback(before);
      }
    }

    method CommitFile(dir: InodeID, name: string, rec: Rec, now: Time) returns (id: InodeID, err: Option<Error>)
      modifies this
      ensures Committed(NS.CommitFile(old(View()), dir, name, rec, now), old(View()), err, View())
      ensures err.None? ==> dentry[NS.Slot(dir, name)] == id
    {
      id := 0;
      var k := NS.Slot(dir, name);
      if dir !in inode { return id, Some(NS.NotFound); }
      if !inode[dir].isDir { return id, Some(NS.NotDir); }
      var before := View();
      var rec' := rec;
      var oldSize, inodeDelta := 0, 0;
      if k in dentry {
        id := dentry[k];
        if id !in inode { return id, Some(NS.NotFound); }
        var existing := inode[id];
        if existing.isDir { return id, Some(NS.IsDirectory); }
        oldSize := existing.size;
        rec' := rec'.(nlink := existing.nlink, mode := existing.mode, uid := existing.uid, gid := existing.gid);
        rec' := rec'.(ctime := now, atime := existing.atime);
      } else {
        id := AllocInode();
        inodeDelta := 1;
        if rec'.atime == 0 {
          rec' := rec'.(atime := rec'.mtime);
        }
      }
      err := ApplyQuotaDelta(rec'.size - oldSize, inodeDelta);
      if err.None? {
        PutInode(id, rec');
        if inodeDelta == 1 {
          err := SetDentry(dir, name, id, now);
        }
      }
      if err.Some? {
        Rollback(before);
      }
    }

    method CommitMkdir(dir: InodeID, name: string, rec: Rec, now: Time) returns (id: InodeID, err: Option<Error>)
      modifies this
      ensures Committed(NS.CommitMkdir(old(View()), dir, name, rec, now), old(View()), err, View())
      ensures err.None? ==> id == old(next) + 1
    {
      id := 0;
      if dir !in inode { return id, Some(NS.NotFound); }
      if !inode[dir].isDir { return id, Some(NS.NotDir); }
      if NS.Slot(dir, name) in dentry { return id, Some(NS.Exists); }
      var before := View();
      id := AllocInode();
      err := ApplyQuotaDelta(0, 1);
      if err.None? {
        PutInode(id, rec);
        err := SetDentry(dir, name, id, now);
      }
      if err.None? {
        err := AdjustDirLinks(dir, 1);
      }
      if err.Some? {
        Rollback(before);
      }
    }

    method UpdateInodeContent(id: InodeID, rec: Rec) returns (err: Option<Error>)
      modifies this`inode
      ensures Committed(NS.UpdateInodeContent(old(View()), id, rec), old(View()), err, View())
    {
      if id !in inode { return Some(NS.NotFound); }
      var existing := inode[id];
      existing := existing.(size := rec.size);
      existing := existing.(content := rec.content);
      existing := existing.(mtime := rec.mtime, ctime := rec.mtime);
      PutInode(id, existing);
      return None;
    }

    // --- rename ----------------------------------------------------------------------

    /** The scan for the dentry that points at a directory, in any bucket order. */
    method ParentOf(child: InodeID) returns (parent: Option<InodeID>)
      ensures parent.Some? ==> exists k :: k in dentry && dentry[k] == child && k.dir == parent.value
      ensures parent.None? ==> !Named(dentry, child)
    {
      var todo := dentry.Keys;
      while todo != {}
        invariant todo <= dentry.Keys
        invariant forall k :: k in dentry && k !in todo ==> dentry[k] != child
        decreases |todo|
      {
        var k :| k in todo;
        if dentry[k] == child { return Some(k.dir); }
        todo := todo - {k};
      }
      return None;
    }

    /** Walks up from `start`: it terminates, and refuses exactly when `start` lies within `ancestor`. */
    method CheckNotDescendant(ancestor: InodeID, start: InodeID) returns (err: Option<Error>)
      requires Tree(View()) && IsDir(View(), start) && ancestor != NS.ROOT
      ensures err == if NS.Within(dentry, ancestor, start) then Some(NS.InvalidRename) else None
    {
      ghost var s := View();
      ghost var rank :| Ranked(s, rank);
      var cur := start;
      while cur != NS.ROOT
        invariant IsDir(s, cur)
        invariant NS.Within(dentry, ancestor, start) <==> NS.Within(dentry, ancestor, cur)
        decreases rank(cur)
      {
        if cur == ancestor {
          WithinSelf(dentry, cur);
          return Some(NS.InvalidRename);
        }
        var parent := ParentOf(cur);
        if parent.None? {
          NotWithinUnnamed(s, ancestor, cur);
          return None;
        }
        WithinParentIff(s, ancestor, cur, parent.value);
        cur := parent.value;
      }
      NotWithinUnnamed(s, ancestor, NS.ROOT);
      return None;
    }

    method Displace(src: Rec, newDir: InodeID, newName: string, at: Time) returns (err: Option<Error>)
      modifies this`inode, this`quota, this`graves
      ensures Ran(NS.Displace(old(View()), src, newDir, newName, at), err, View())
    {
      var k := NS.Slot(newDir, newName);
      if k !in dentry { return None; }
      var dst := dentry[k];
      if dst !in inode { return Some(NS.NotFound); }
      var dstRec := inode[dst];
      if dstRec.isDir && !src.isDir { return Some(NS.IsDirectory); }
      if !dstRec.isDir && src.isDir { return Some(NS.NotDir); }
      if dstRec.isDir && NS.HasEntries(dentry, dst) { return Some(NS.NotEmpty); }
      err := DropLink(dst, dstRec, at);
    }

    method MoveBinding(src: InodeID, srcRec: Rec, from: NS.Slot, to: NS.Slot, at: Time) returns (err: Option<Error>)
      modifies this`inode, this`dentry
      ensures Ran(NS.MoveBinding(old(View()), src, srcRec, from, to, at), err, View())
    {
      dentry := dentry - {from};
      err := TouchDir(from.dir, at);
      if err.Some? { return; }
      if srcRec.isDir && from.dir != to.dir {
        err := AdjustDirLinks(from.dir, -1);
        if err.Some? { return; }
        err := AdjustDirLinks(to.dir, 1);
        if err.Some? { return; }
      }
      PutInode(src, srcRec.(ctime := at));
      err := SetDentry(to.dir, to.name, src, at);
    }

    method Rename(oldDir: InodeID, oldName: string, newDir: InodeID, newName: string, at: Time) returns (err: Option<Error>)
      requires Tree(View())
      modifies this
      ensures Committed(NS.Rename(old(View()), oldDir, oldName, newDir, newName, at), old(View()), err, View())
      ensures err == Some(NS.InvalidRename) <==>
                && |newName| <= NS.MAX_NAME_LEN && IsDir(old(View()), newDir)
                && MakesCycle(old(View()), NS.Slot(oldDir, oldName), NS.Slot(newDir, newName))
    {
      RenameRefusesExactlyCycles(View(), oldDir, oldName, newDir, newName, at);
      if oldDir == newDir && oldName == newName { return None; }
      if |newName| > NS.MAX_NAME_LEN { return Some(NS.NameTooLong); }
      var from, to := NS.Slot(oldDir, oldName), NS.Slot(newDir, newName);
      if from !in dentry || dentry[from] !in inode { return Some(NS.NotFound); }
      var src := dentry[from];
      var srcRec := inode[src];
      if newDir !in inode { return Some(NS.NotFound); }
      if !inode[newDir].isDir { return Some(NS.NotDir); }
      assert Anchored(View(), from);
      var before := View();
      if srcRec.isDir {
        err := CheckNotDescendant(src, newDir);
        if err.Some? { return; }
      }
      err := Displace(srcRec, newDir, newName, at);
      if err.None? {
        err := MoveBinding(src, srcRec, from, to, at);
      }
      if err.Some? {
        Rollback(before);
      }
    }

    // --- paths -------------------------------------------------------------------------

    /** The inode a path leads to and its record. */
    method Resolve(path: seq<string>) returns (id: InodeID, rec: Option<Rec>, err: Option<Error>)
      ensures match NS.ResolveFrom(View(), NS.ROOT, path)
              case Ok(x) => if NS.ROOT in inode then err.None? && id == x else err == Some(NS.NotFound)
              case Err(e) => err == Some(e)
      ensures if err.None? then id in inode && rec == Some(inode[id]) else rec == None
    {
      id, rec := NS.ROOT, None;
      if NS.ROOT !in inode {
        ResolveErrors(View(), NS.ROOT, path);
        return id, None, Some(NS.NotFound);
      }
      for i := 0 to |path|
        invariant id in inode && NS.ResolveFrom(View(), NS.ROOT, path) == NS.ResolveFrom(View(), id, path[i..])
      {
        assert path[i..][0] == path[i] && path[i..][1..] == path[i + 1..];
        if path[i] != "" {
          var k := NS.Slot(id, path[i]);
          if k !in dentry || dentry[k] !in inode { return id, None, Some(NS.NotFound); }
          id := dentry[k];
        }
      }
      return id, Some(inode[id]), None;
    }

    /** One component: the existing entry, or a new directory charged in its own transaction. */
    method EnsureChild(dir: InodeID, name: string, rec: Rec, now: Time) returns (id: InodeID, err: Option<Error>)
      requires Inv(View()) && LiveDir(View(), dir) && DirRecord(rec)
      modifies this
      ensures Inv(View()) && Grown(old(View()), View())
      ensures err.None? ==> NS.Slot(dir, name) in dentry && dentry[NS.Slot(dir, name)] == id && id in inode
      ensures NS.Slot(dir, name) in old(View()).dentry ==> err.None? && View() == old(View())
      ensures NS.Slot(dir, name) !in old(View()).dentry ==>
                && Committed(NS.CommitMkdir(old(View()), dir, name, rec, now), old(View()), err, View())
                && (err.None? ==> id == old(next) + 1)
    {
      var k := NS.Slot(dir, name);
      if k in dentry {
        assert Anchored(View(), k);
        return dentry[k], None;
      }
      id, err := CommitMkdir(dir, name, rec, now);
      if err.None? {
        MkdirKeepsInv(old(View()), OpMkdir(dir, name, rec, now));
        MkdirGrows(old(View()), dir, name, rec, now);
      }
    }

    /**
     Creates the missing directories of a path, one charged transaction each; what exists costs nothing. On
     success the path resolves to the inode returned, and every name that was bound still is. It stops at the first
     component that cannot be made, and succeeds exactly if there is none.
     */
    method EnsureDirCharged(path: seq<string>, rec: Rec, now: Time) returns (id: InodeID, err: Option<Error>)
      requires Inv(View()) && DirRecord(rec)
      modifies this
      ensures Inv(View()) && Grown(old(View()), View())
      ensures err.None? ==> NS.ResolveFrom(View(), NS.ROOT, path) == Ok(id)
      ensures Made(old(View()), View(), Deepest(old(View()), NS.ROOT, path), Missing(old(View()), NS.ROOT, path), rec, now, next - old(next))
      ensures err.None? ==> next - old(next) == |Missing(old(View()), NS.ROOT, path)|
      ensures err.None? <==> forall j :: 0 <= j < |Missing(old(View()), NS.ROOT, path)| ==>
                                           CanMake(old(View()), Deepest(old(View()), NS.ROOT, path), Missing(old(View()), NS.ROOT, path), j)
      ensures err.Some? ==>
                && next - old(next) < |Missing(old(View()), NS.ROOT, path)|
                && err.value == WhyNot(old(View()), Deepest(old(View()), NS.ROOT, path), Missing(old(View()), NS.ROOT, path), next - old(next))
                && !CanMake(old(View()), Deepest(old(View()), NS.ROOT, path), Missing(old(View()), NS.ROOT, path), next - old(next))
    {
      hide Inv, LiveDir, Made, Missing, Deepest, CanMake, WhyNot;
      id := NS.ROOT;
      ghost var s0 := View();
      ghost var n: nat := 0;
      WalkStarts(s0, path, rec, now);
      for i := 0 to |path|
        invariant Inv(View()) && LiveDir(View(), id) && Grown(s0, View()) && n == next - s0.next
        invariant NS.ResolveFrom(View(), NS.ROOT, path[..i]) == Ok(id)
        invariant Made(s0, View(), Deepest(s0, NS.ROOT, path), Missing(s0, NS.ROOT, path), rec, now, n)
        invariant Reached(s0, View(), path, i, id, n)
      {
        assert path[..i + 1] == path[..i] + [path[i]];
        ghost var before, dir := View(), id;
        if path[i] != "" {
          LiveThere(before, dir);
          id, err := EnsureChild(id, path[i], rec, now);
          if err.Some? {
            EnsureFails(s0, before, path, i, dir, rec, now, n, err.value);
            return;
          }
          assert dentry[NS.Slot(dir, path[i])] == id;
          EnsureSteps(s0, before, View(), path, i, dir, id, rec, now, n);
          n := next - s0.next;
          ChildLives(View(), NS.Slot(dir, path[i]));
        } else {
          EnsureSkips(s0, before, path, i, dir, n);
        }
        StepResolves(before, View(), dir, path[..i], path[i]);
      }
      assert path[..|path|] == path;
      WalkEnds(s0, View(), path, id, n);
      AllMade(s0, View(), Deepest(s0, NS.ROOT, path), Missing(s0, NS.ROOT, path), rec, now);
      return id, None;
    }
  }

  // --- which directories are made ------------------------------------------------------------------

  /** Where a path stops being bound. */
  ghost function Deepest(s: State, cur: InodeID, path: seq<string>): InodeID
    decreases |path|
  {
    if path == [] then cur
    else if path[0] == "" then Deepest(s, cur, path[1..])
    else if NS.Slot(cur, path[0]) in s.dentry then Deepest(s, s.dentry[NS.Slot(cur, path[0])], path[1..])
    else cur
  }

  /** The components from there on. */
  ghost function Missing(s: State, cur: InodeID, path: seq<string>): seq<string>
    decreases |path|
  {
    if path == [] then []
    else if path[0] == "" then Missing(s, cur, path[1..])
    else if NS.Slot(cur, path[0]) in s.dentry then Missing(s, s.dentry[NS.Slot(cur, path[0])], path[1..])
    else Components(path)
  }

  /** The missing directory number `n` can be made after those before it. */
  ghost predicate CanMake(s: State, deepest: InodeID, missing: seq<string>, n: nat)
    requires n < |missing|
  {
    && IsDir(s, deepest) && |missing[n]| <= 255
    && (s.quota.inodesLimit == 0 || s.quota.inodesUsed + n + 1 <= s.quota.inodesLimit)
  }

  /** Why it cannot. */
  ghost function WhyNot(s: State, deepest: InodeID, missing: seq<string>, n: nat): Error {
    if !IsDir(s, deepest) then NS.NotDir
    else if s.quota.inodesLimit > 0 && s.quota.inodesUsed + n + 1 > s.quota.inodesLimit then NS.QuotaExceeded
    else NS.NameTooLong
  }

  /** The first `n` were made, one inside the other, with this record's owner and mode; nothing else but the counts and times of their parents changed. */
  ghost predicate Made(s: State, s': State, deepest: InodeID, missing: seq<string>, rec: Rec, now: Time, n: int) {
    && 0 <= n <= |missing| && s'.next == s.next + n && s'.graves == s.graves
    && s'.quota == s.quota.(inodesUsed := s.quota.inodesUsed + n)
    && (forall j :: 0 <= j < n ==> CanMake(s, deepest, missing, j))
    && MadeNames(s, s'.dentry, deepest, missing, n) && MadeRecords(s, s'.inode, deepest, rec, now, n)
  }

  /** One inside the other, and no other name changed. */
  ghost predicate MadeNames(s: State, d: NS.Dentries, deepest: InodeID, missing: seq<string>, n: nat)
    requires n <= |missing|
  {
    && (forall j :: 0 <= j < n ==> Nth(s, deepest, missing, j) in d && d[Nth(s, deepest, missing, j)] == s.next + 1 + j)
    && (forall k :: k in d ==> k in s.dentry || exists j :: 0 <= j < n && k == Nth(s, deepest, missing, j))
    && (forall k :: k in s.dentry ==> k in d && d[k] == s.dentry[k])
  }

  /** Each holds the next but the last; where the first was made has one more. */
  ghost predicate MadeRecords(s: State, inode: map<InodeID, Rec>, deepest: InodeID, rec: Rec, now: Time, n: nat) {
    && (forall x :: x in inode <==> x in s.inode || s.next < x <= s.next + n)
    && (forall x :: s.next < x <= s.next + n ==> inode[x] == if x == s.next + n then rec else Transactions.Recounted(rec, 1, now))
    && (forall x :: x in s.inode && x <= s.next ==>
          inode[x] == if x == deepest && n > 0 then Transactions.Recounted(s.inode[x], 1, now) else s.inode[x])
  }

  /** The slot of the missing directory number `j`. */
  ghost function Nth(s: State, deepest: InodeID, missing: seq<string>, j: nat): NS.Slot
    requires j < |missing|
  {
    NS.Slot(if j == 0 then deepest else s.next + j, missing[j])
  }

  /** How far the walk is: still among what was bound, or inside the last directory made. */
  ghost predicate Reached(s0: State, s: State, path: seq<string>, i: nat, id: InodeID, n: nat)
    requires i <= |path|
  {
    if n == 0 then
      s == s0 && Missing(s0, id, path[i..]) == Missing(s0, NS.ROOT, path) && Deepest(s0, id, path[i..]) == Deepest(s0, NS.ROOT, path)
    else
      && id == s0.next + n && n <= |Missing(s0, NS.ROOT, path)|
      && Components(path[i..]) == Missing(s0, NS.ROOT, path)[n..]
  }

  lemma AllMade(s: State, s': State, deepest: InodeID, missing: seq<string>, rec: Rec, now: Time)
    requires Made(s, s', deepest, missing, rec, now, |missing|)
    ensures forall j :: 0 <= j < |missing| ==> CanMake(s, deepest, missing, j)
  {
  }

  lemma WalkStarts(s: State, path: seq<string>, rec: Rec, now: Time)
    requires Inv(s)
    ensures LiveDir(s, NS.ROOT) && Grown(s, s) && NS.ResolveFrom(s, NS.ROOT, path[..0]) == Ok(NS.ROOT)
    ensures Made(s, s, Deepest(s, NS.ROOT, path), Missing(s, NS.ROOT, path), rec, now, 0) && Reached(s, s, path, 0, NS.ROOT, 0)
  {
    hide Tree, CanMake;
    assert path[0..] == path && path[..0] == [];
    forall x | x in s.inode ensures x <= s.next {
      VitalAt(s, x);
    }
  }

  lemma WalkEnds(s0: State, s: State, path: seq<string>, id: InodeID, n: nat)
    requires Reached(s0, s, path, |path|, id, n)
    ensures n == |Missing(s0, NS.ROOT, path)|
  {
    assert path[|path|..] == [];
  }

  lemma LiveThere(s: State, dir: InodeID)
    requires Inv(s) && LiveDir(s, dir)
    ensures dir in s.inode
  {
    if dir == NS.ROOT {
      VitalAt(s, dir);
    } else {
      var k :| k in s.dentry && s.dentry[k] == dir;
      assert Anchored(s, k);
    }
  }

  lemma ChildLives(s: State, k: NS.Slot)
    requires k in s.dentry
    ensures LiveDir(s, s.dentry[k])
  {
  }

  lemma EnsureSkips(s0: State, s: State, path: seq<string>, i: nat, id: InodeID, n: nat)
    requires i < |path| && path[i] == "" && Reached(s0, s, path, i, id, n)
    ensures Reached(s0, s, path, i + 1, id, n)
  {
    assert path[i..][0] == path[i] && path[i..][1..] == path[i + 1..];
  }

  /** A directory that was just made holds nothing. */
  lemma NewHoldsNothing(s0: State, s: State, deepest: InodeID, missing: seq<string>, rec: Rec, now: Time, n: nat, name: string)
    requires Inv(s0) && Made(s0, s, deepest, missing, rec, now, n) && n > 0
    ensures NS.Slot(s0.next + n, name) !in s.dentry
  {
    hide Accounting.Balanced, CanMake;
    var k := NS.Slot(s0.next + n, name);
    if k in s0.dentry {
      assert Anchored(s0, k);
      NumberedBelow(s0, k.dir);
    }
    assert CanMake(s0, deepest, missing, 0);
    MakesIn(s0, deepest, missing);
    NumberedBelow(s0, deepest);
  }

  lemma MakesIn(s: State, deepest: InodeID, missing: seq<string>)
    requires missing != [] && CanMake(s, deepest, missing, 0)
    ensures deepest in s.inode && IsDir(s, deepest)
  {
  }

  lemma NumberedBelow(s: State, id: InodeID)
    requires Inv(s) && id in s.inode
    ensures id <= s.next
  {
    hide Tree;
    VitalAt(s, id);
  }

  /** The next component is bound, and then nothing was made yet, or it is the next that is missing. */
  lemma AtMissing(s0: State, s: State, path: seq<string>, i: nat, dir: InodeID, rec: Rec, now: Time, n: nat)
    requires Inv(s0) && i < |path| && path[i] != "" && Reached(s0, s, path, i, dir, n)
    requires Made(s0, s, Deepest(s0, NS.ROOT, path), Missing(s0, NS.ROOT, path), rec, now, n)
    ensures if NS.Slot(dir, path[i]) in s.dentry then n == 0
            else
              && n < |Missing(s0, NS.ROOT, path)| && Missing(s0, NS.ROOT, path)[n] == path[i]
              && dir == (if n == 0 then Deepest(s0, NS.ROOT, path) else s0.next + n)
              && Components(path[i + 1..]) == Missing(s0, NS.ROOT, path)[n + 1..]
  {
    hide Inv, Made, CanMake;
    var rest, missing := path[i..], Missing(s0, NS.ROOT, path);
    assert rest[0] == path[i] && rest[1..] == path[i + 1..];
    assert Components(rest) == [path[i]] + Components(path[i + 1..]);
    if n == 0 {
      if NS.Slot(dir, path[i]) !in s.dentry {
        assert missing == Components(rest);
      }
    } else {
      NewHoldsNothing(s0, s, Deepest(s0, NS.ROOT, path), missing, rec, now, n, path[i]);
      assert missing[n..][0] == path[i] && missing[n..][1..] == missing[n + 1..];
    }
  }

  /** The directory the next one goes into. */
  lemma MakingIn(s0: State, s: State, deepest: InodeID, missing: seq<string>, rec: Rec, now: Time, n: nat)
    requires Inv(s0) && rec.isDir && Made(s0, s, deepest, missing, rec, now, n) && n < |missing|
    ensures var dir := if n == 0 then deepest else s0.next + n; IsDir(s, dir) <==> IsDir(s0, deepest)
    ensures s.quota == s0.quota.(inodesUsed := s0.quota.inodesUsed + n)
  {
    hide Inv;
    if n > 0 {
      assert CanMake(s0, deepest, missing, 0);
    } else if deepest in s0.inode {
      NumberedBelow(s0, deepest);
    }
  }

  lemma EnsureFails(s0: State, s: State, path: seq<string>, i: nat, dir: InodeID, rec: Rec, now: Time, n: nat, err: Error)
    requires Inv(s0) && rec.isDir && i < |path| && path[i] != "" && Reached(s0, s, path, i, dir, n)
    requires Made(s0, s, Deepest(s0, NS.ROOT, path), Missing(s0, NS.ROOT, path), rec, now, n)
    requires NS.Slot(dir, path[i]) !in s.dentry && dir in s.inode && NS.CommitMkdir(s, dir, path[i], rec, now) == Err(err)
    ensures n < |Missing(s0, NS.ROOT, path)|
    ensures err == WhyNot(s0, Deepest(s0, NS.ROOT, path), Missing(s0, NS.ROOT, path), n)
    ensures !CanMake(s0, Deepest(s0, NS.ROOT, path), Missing(s0, NS.ROOT, path), n)
  {
    hide Inv, Made, Reached, NS.CommitMkdir;
    AtMissing(s0, s, path, i, dir, rec, now, n);
    MakingIn(s0, s, Deepest(s0, NS.ROOT, path), Missing(s0, NS.ROOT, path), rec, now, n);
    Transactions.MkdirRefusedIff(s, dir, path[i], rec, now);
  }

  lemma MadeNamesNext(s0: State, d: NS.Dentries, deepest: InodeID, missing: seq<string>, n: nat)
    requires n < |missing| && MadeNames(s0, d, deepest, missing, n) && deepest <= s0.next && Nth(s0, deepest, missing, n) !in d
    ensures MadeNames(s0, d[Nth(s0, deepest, missing, n) := s0.next + n + 1], deepest, missing, n + 1)
  {
    var k := Nth(s0, deepest, missing, n);
    var d' := d[k := s0.next + n + 1];
    forall j | 0 <= j < n + 1 ensures Nth(s0, deepest, missing, j) in d' && d'[Nth(s0, deepest, missing, j)] == s0.next + 1 + j {
      if j < n {
        assert Nth(s0, deepest, missing, j) in d;
      }
    }
    forall x | x in d' ensures x in s0.dentry || exists j :: 0 <= j < n + 1 && x == Nth(s0, deepest, missing, j) {
      if x != k && x !in s0.dentry {
        var j :| 0 <= j < n && x == Nth(s0, deepest, missing, j);
      }
    }
  }

  lemma MadeRecordsNext(s0: State, s: State, s': State, deepest: InodeID, dir: InodeID, rec: Rec, now: Time, n: nat)
    requires MadeRecords(s0, s.inode, deepest, rec, now, n) && (forall x :: x in s0.inode ==> x <= s0.next) && deepest in s0.inode
    requires s.next == s0.next + n && dir == (if n == 0 then deepest else s0.next + n)
    requires s.next + 1 in s'.inode && s'.inode[s.next + 1] == rec && dir in s.inode && dir in s'.inode
    requires s'.inode[dir] == Transactions.Recounted(s.inode[dir], 1, now) && Transactions.Elsewhere(s, s', {s.next + 1, dir})
    ensures MadeRecords(s0, s'.inode, deepest, rec, now, n + 1)
  {
  }

  /** One more made. */
  lemma MadeNext(s0: State, s: State, s': State, deepest: InodeID, missing: seq<string>, rec: Rec, now: Time, n: nat)
    requires Inv(s0) && Made(s0, s, deepest, missing, rec, now, n) && n < |missing| && CanMake(s0, deepest, missing, n)
    requires var k := Nth(s0, deepest, missing, n);
             k.dir in s.inode && Transactions.Created(s, s', k.dir, k.name, rec, Transactions.Recounted(s.inode[k.dir], 1, now), 0)
    ensures Made(s0, s', deepest, missing, rec, now, n + 1)
  {
    hide Inv, MadeNames, MadeRecords, Transactions.Elsewhere, Transactions.Recounted;
    forall x | x in s0.inode ensures x <= s0.next {
      NumberedBelow(s0, x);
    }
    MadeNamesNext(s0, s.dentry, deepest, missing, n);
    MadeRecordsNext(s0, s, s', deepest, Nth(s0, deepest, missing, n).dir, rec, now, n);
  }

  lemma EnsureSteps(s0: State, s: State, s': State, path: seq<string>, i: nat, dir: InodeID, id: InodeID, rec: Rec, now: Time, n: nat)
    requires Inv(s0) && Inv(s) && rec.isDir && i < |path| && path[i] != "" && Reached(s0, s, path, i, dir, n)
    requires Made(s0, s, Deepest(s0, NS.ROOT, path), Missing(s0, NS.ROOT, path), rec, now, n)
    requires NS.Slot(dir, path[i]) in s'.dentry && s'.dentry[NS.Slot(dir, path[i])] == id
    requires if NS.Slot(dir, path[i]) in s.dentry then s' == s else NS.CommitMkdir(s, dir, path[i], rec, now) == Ok(s') && id == s.next + 1
    ensures s'.next >= s0.next && Reached(s0, s', path, i + 1, id, s'.next - s0.next)
    ensures Made(s0, s', Deepest(s0, NS.ROOT, path), Missing(s0, NS.ROOT, path), rec, now, s'.next - s0.next)
  {
    hide Inv, Made, NS.CommitMkdir, CanMake;
    var deepest, missing := Deepest(s0, NS.ROOT, path), Missing(s0, NS.ROOT, path);
    MadeCount(s0, s, deepest, missing, rec, now, n);
    AtMissing(s0, s, path, i, dir, rec, now, n);
    assert path[i..][0] == path[i] && path[i..][1..] == path[i + 1..];
    if NS.Slot(dir, path[i]) !in s.dentry {
      MakingIn(s0, s, deepest, missing, rec, now, n);
      Transactions.MkdirRefusedIff(s, dir, path[i], rec, now);
      Transactions.MkdirDoes(s, dir, path[i], rec, now);
      CanMakeNow(s0, s, deepest, missing, n, path[i]);
      MadeNext(s0, s, s', deepest, missing, rec, now, n);
    }
  }

  lemma MadeCount(s0: State, s: State, deepest: InodeID, missing: seq<string>, rec: Rec, now: Time, n: nat)
    requires Made(s0, s, deepest, missing, rec, now, n)
    ensures s.next == s0.next + n
  {
  }

  lemma CanMakeNow(s0: State, s: State, deepest: InodeID, missing: seq<string>, n: nat, name: string)
    requires n < |missing| && missing[n] == name && |name| <= 255 && IsDir(s0, deepest)
    requires s.quota == s0.quota.(inodesUsed := s0.quota.inodesUsed + n) && Transactions.Allows(s.quota, 0, 1)
    ensures CanMake(s0, deepest, missing, n)
  {
  }

  /** Names and inodes were only added, and each new inode was charged. */
  ghost predicate Grown(s: State, s': State) {
    && (forall k :: k in s.dentry ==> k in s'.dentry && s'.dentry[k] == s.dentry[k])
    && s'.inode.Keys >= s.inode.Keys
    && s'.quota.inodesUsed - s.quota.inodesUsed == s'.next - s.next && s'.quota.bytesUsed == s.quota.bytesUsed
  }

  lemma MkdirGrows(s: State, dir: InodeID, name: string, rec: Rec, now: Time)
    requires NS.CommitMkdir(s, dir, name, rec, now).Ok? && DirRecord(rec)
    ensures var s' := NS.CommitMkdir(s, dir, name, rec, now).value;
            && Grown(s, s') && NS.Slot(dir, name) in s'.dentry
            && s'.dentry[NS.Slot(dir, name)] == s.next + 1 && s.next + 1 in s'.inode
  {
    var s' := NS.CommitMkdir(s, dir, name, rec, now).value;
    MkdirBooks(s, dir, name, rec, now);
    forall id | id in s.inode || id == s.next + 1 ensures id in s'.inode {
      VitalAt(s, id);
      VitalAt(s', id);
    }
  }

  /** A resolved prefix stays resolved while names are only added, and its next component follows. */
  lemma StepResolves(s: State, s': State, dir: InodeID, path: seq<string>, name: string)
    requires NS.ResolveFrom(s, NS.ROOT, path) == Ok(dir) && Grown(s, s')
    ensures NS.ResolveFrom(s', NS.ROOT, path + [name]) == NS.ResolveFrom(s', dir, [name])
    ensures name == "" ==> NS.ResolveFrom(s', dir, [name]) == Ok(dir)
    ensures var k := NS.Slot(dir, name);
            name != "" && k in s'.dentry && s'.dentry[k] in s'.inode ==> NS.ResolveFrom(s', dir, [name]) == Ok(s'.dentry[k])
  {
    ResolveKept(s, s', NS.ROOT, path, dir);
    ResolveConcat(s', NS.ROOT, path, [name]);
    assert [name][1..] == [];
  }

  /** Something other than `a` that nothing names is not within `a`. */
  lemma NotWithinUnnamed(s: State, a: InodeID, x: InodeID)
    requires Tree(s) && a != x && (x == NS.ROOT || !Named(s.dentry, x))
    ensures !NS.Within(s.dentry, a, x)
  {
    if NS.Within(s.dentry, a, x) {
      var k := WithinParent(s.dentry, a, x);
    }
  }

  /** One step up the tree: the parent is a directory of smaller rank, and within `a` exactly when the child is. */
  lemma WithinParentIff(s: State, a: InodeID, x: InodeID, parent: InodeID)
    requires Tree(s) && IsDir(s, x) && a != x
    requires exists k :: k in s.dentry && s.dentry[k] == x && k.dir == parent
    ensures NS.Within(s.dentry, a, x) <==> NS.Within(s.dentry, a, parent)
    ensures IsDir(s, parent) && forall rank :: Ranked(s, rank) ==> rank(parent) < rank(x)
  {
    var k :| k in s.dentry && s.dentry[k] == x && k.dir == parent;
    assert Anchored(s, k);
    if NS.Within(s.dentry, a, parent) {
      WithinChild(s.dentry, a, k);
    }
    if NS.Within(s.dentry, a, x) {
      var j := WithinParent(s.dentry, a, x);
    }
  }
}
