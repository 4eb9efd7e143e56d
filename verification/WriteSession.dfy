/** The buffered write session of a remote mount (pkg/mdsfuse/write.go): what reaches the authority, and when. */
module WriteSession {
  import opened Base
  import opened Namespace
  import opened Storage
  import opened ContentPath
  import W = Witnesses

  /** The open file: its inode and the binding the mount last knew, empty if none. */
  datatype NodeRef = NodeRef(ino: InodeID, parent: InodeID, name: string)

  /** What became of a request: answered, never applied, or applied with the answer lost. */
  datatype Reply = Answered | Unsent | Unanswered

  const DEFAULT_MODE := 420 // 0o644

  // --- where a flush goes ----------------------------------------------------------------------

  /** The binding is read again at commit time, so a rename while the file is open is followed. */
  function Target(node: Option<NodeRef>, dir: InodeID, name: string): Slot {
    if node.Some? && node.value.name != "" then Slot(node.value.parent, node.value.name) else Slot(dir, name)
  }

  /** Whether the target no longer names this session's inode; a lookup that fails counts as attached. */
  predicate Detached(s: NS, node: Option<NodeRef>, target: Slot, lookupFails: bool) {
    && node.Some? && node.value.ino != 0 && !lookupFails
    && (target !in s.dentry || s.dentry[target] != node.value.ino)
  }

  /**
   What a flush does to the authority. It makes two requests, and other clients may act in between: `seen` is the state
   in which the lookup is answered, `s` the one in which the commit is.
   */
  function Flush(seen: NS, s: NS, node: Option<NodeRef>, target: Slot, rec: InodeRecord, lookupFails: bool, now: Time): Result<NS, Error> {
    if Detached(seen, node, target, lookupFails) then UpdateInodeContent(s, node.value.ino, rec)
    else CommitFile(s, target.dir, target.name, rec, now)
  }

  /** The record of `id` alone may differ, and no name does. */
  ghost predicate OnlyRecord(s: NS, s': NS, id: InodeID) {
    && s'.dentry == s.dentry && s'.graves == s.graves && s'.next == s.next && s'.inode.Keys == s.inode.Keys
    && forall x :: x in s.inode && x != id ==> s'.inode[x] == s.inode[x]
  }

  /** The answer to the lookup is still right when the commit arrives: nobody rebound the name in between. */
  predicate Undisturbed(seen: NS, s: NS, target: Slot) {
    (target in seen.dentry <==> target in s.dentry) && (target in s.dentry ==> seen.dentry[target] == s.dentry[target])
  }

  /**
   A flush never changes the namespace, when the lookup succeeded and nobody rebound the name before the commit: only
   the session's own inode's record changes, and it then has the content and size that were flushed.
   */
  lemma FlushKeepsNamespace(seen: NS, s: NS, node: NodeRef, target: Slot, rec: InodeRecord, now: Time)
    requires node.ino != 0 && Undisturbed(seen, s, target) && Flush(seen, s, Some(node), target, rec, false, now).Ok?
    ensures var s' := Flush(seen, s, Some(node), target, rec, false, now).value;
            && OnlyRecord(s, s', node.ino) && node.ino in s.inode
            && s'.inode[node.ino].content == rec.content && s'.inode[node.ino].size == rec.size && s'.inode[node.ino].mtime == rec.mtime
  {
  }

  /**
   In any interleaving: names are kept exactly if the lookup said that the name is no longer the session's, or the name
   is bound when the commit arrives. Otherwise the commit brings the name back, with a new inode.
   */
  lemma FlushKeepsNamesIff(seen: NS, s: NS, node: NodeRef, target: Slot, rec: InodeRecord, lookupFails: bool, now: Time)
    requires Flush(seen, s, Some(node), target, rec, lookupFails, now).Ok?
    ensures var s' := Flush(seen, s, Some(node), target, rec, lookupFails, now).value;
            s'.dentry == s.dentry <==> Detached(seen, Some(node), target, lookupFails) || target in s.dentry
  {
    if !Detached(seen, Some(node), target, lookupFails) && target !in s.dentry {
      assert target in Flush(seen, s, Some(node), target, rec, lookupFails, now).value.dentry;
    }
  }

  /** The inode a flush writes to, when it creates none. */
  function Written(seen: NS, s: NS, node: NodeRef, target: Slot, lookupFails: bool): InodeID
    requires Detached(seen, Some(node), target, lookupFails) || target in s.dentry
  {
    if Detached(seen, Some(node), target, lookupFails) then node.ino else s.dentry[target]
  }

  /**
   In any interleaving in which no name is created, one record is written, with the flushed content. It is the session's
   own exactly if the lookup said that the name is no longer the session's, or the name is its own when the commit
   arrives; otherwise another file is overwritten.
   */
  lemma FlushClobbersIff(seen: NS, s: NS, node: NodeRef, target: Slot, rec: InodeRecord, lookupFails: bool, now: Time)
    requires Flush(seen, s, Some(node), target, rec, lookupFails, now).Ok?
    requires Detached(seen, Some(node), target, lookupFails) || target in s.dentry
    ensures var s' := Flush(seen, s, Some(node), target, rec, lookupFails, now).value;
            var id := Written(seen, s, node, target, lookupFails);
            && OnlyRecord(s, s', id) && id in s'.inode && s'.inode[id].content == rec.content
            && (id == node.ino <==> Detached(seen, Some(node), target, lookupFails) || s.dentry[target] == node.ino)
  {
  }

  // --- what a flush leaves behind ------------------------------------------------------------------

  /** The lookup was answered, and not with the session's inode. */
  predicate Elsewhere(seen: NS, node: Option<NodeRef>, slot: Slot, lookupFails: bool) {
    node.Some? && node.value.ino != 0 && !lookupFails && !(slot in seen.dentry && seen.dentry[slot] == node.value.ino)
  }

  /** The record holds these bytes, written now, and is otherwise whose it was. */
  ghost predicate Holds(r: InodeRecord, r': InodeRecord, content: Content, size: nat, now: Time) {
    && r'.content == content && r'.size == size && r'.mtime == now && r'.ctime == now
    && r'.atime == r.atime && r'.nlink == r.nlink && r'.mode == r.mode && r'.uid == r.uid && r'.gid == r.gid
  }

  /**
   Where the bytes are after a flush to `slot`, and that nothing else changed: in the session's own inode if the lookup
   said that the name is no longer its own; else in the file that has the name; else in a new file.
   */
  ghost predicate Lands(seen: NS, s: NS, s': NS, node: Option<NodeRef>, slot: Slot, lookupFails: bool,
                        content: Content, size: nat, mode: nat, uid: nat, gid: nat, now: Time) {
    if Elsewhere(seen, node, slot, lookupFails) then
      && node.value.ino in s.inode && OnlyRecord(s, s', node.value.ino) && s'.quota == s.quota
      && Holds(s.inode[node.value.ino], s'.inode[node.value.ino], content, size, now)
    else if slot in s.dentry then
      var id := s.dentry[slot];
      && id in s.inode && !s.inode[id].isDir && OnlyRecord(s, s', id) && Holds(s.inode[id], s'.inode[id], content, size, now)
    else
      var id := s.next + 1;
      && s'.dentry == s.dentry[slot := id] && s'.next == id && s'.graves == s.graves
      && id in s'.inode && s'.inode[id] == InodeRecord(false, mode, uid, gid, size, now, now, 0, 1, content, Plain)
      && forall x :: x != id && x != slot.dir ==> (x in s'.inode <==> x in s.inode) && (x in s.inode ==> s'.inode[x] == s.inode[x])
  }

  lemma FlushLands(seen: NS, s: NS, node: Option<NodeRef>, slot: Slot, rec: InodeRecord, lookupFails: bool, now: Time)
    requires Flush(seen, s, node, slot, rec, lookupFails, now).Ok? && s.next + 1 !in s.inode
    requires rec == InodeRecord(false, rec.mode, rec.uid, rec.gid, rec.size, now, 0, 0, 1, rec.content, Plain)
    ensures Lands(seen, s, Flush(seen, s, node, slot, rec, lookupFails, now).value, node, slot, lookupFails,
                  rec.content, rec.size, rec.mode, rec.uid, rec.gid, now)
  {
  }

  // --- the two ways it goes wrong ------------------------------------------------------------------

  /**
   The lookup finds the session's own inode, another client then unlinks the name, and the commit recreates it. The same
   happens with no other client at all when the lookup fails on a name that is gone.
   */
  lemma FlushRecreates(lookupFails: bool)
    ensures W.Reachable(W.NAMED) && RemoveEntry(W.NAMED, ROOT, "a", 0) == Ok(W.UNLINKED)
    ensures var r := Flush(if lookupFails then W.UNLINKED else W.NAMED, W.UNLINKED, Some(NodeRef(2, ROOT, "a")), W.A, W.FILE, lookupFails, 0);
            W.UNLINKED.dentry == map[] && r.Ok? && r.value.dentry == map[W.A := 3] && r.value.inode.Keys == {ROOT, 2, 3}
  {
    W.NamedReachable();
    W.UnlinkedIs();
    W.ReusedIs();
    assert W.REUSED.inode.Keys == {ROOT, 2, 3};
  }

  /** The name passes to another file between the lookup and the commit, and that file gets this session's content. */
  lemma FlushClobbers(c: Content)
    ensures W.Reachable(W.NAMED) && RemoveEntry(W.NAMED, ROOT, "a", 0) == Ok(W.UNLINKED)
    ensures CommitFile(W.UNLINKED, ROOT, "a", W.FILE, 0) == Ok(W.REUSED)
    ensures var r := Flush(W.NAMED, W.REUSED, Some(NodeRef(2, ROOT, "a")), W.A, W.FILE.(content := c), false, 0);
            && r.Ok? && 2 in r.value.inode && 3 in r.value.inode
            && r.value.inode[2] == W.REUSED.inode[2] && r.value.inode[3].content == c
  {
    W.NamedReachable();
    W.UnlinkedIs();
    W.ReusedIs();
  }

  // --- the session -------------------------------------------------------------------------------

  class Session {
    const dir: InodeID
    const name: string
    var node: Option<NodeRef>
    const mode: Option<nat>
    const uid: nat
    const gid: nat
    var buf: Bytes
    var dirty: bool
    /** What the file held when it was opened, then what each successful commit made of it. */
    ghost var committed: Bytes

    /** A clean session's last commit equals its buffer. */
    ghost predicate Valid()
      reads this
    {
      !dirty ==> committed == buf
    }

    constructor (dir: InodeID, name: string, node: Option<NodeRef>, mode: Option<nat>, uid: nat, gid: nat, content: Bytes, dirty: bool)
      ensures Valid() && this.dir == dir && this.name == name && this.node == node && buf == content && this.dirty == dirty
      ensures this.mode == mode && this.uid == uid && this.gid == gid
    {
      this.dir, this.name, this.node, this.mode, this.uid, this.gid := dir, name, node, mode, uid, gid;
      buf, this.dirty, committed := content, dirty, content;
    }

    /** Bytes past the end and before the offset are zero; everything outside the written range is kept. */
    method WriteAt(p: Bytes, off: nat) returns (n: nat)
      requires Valid()
      modifies this`buf, this`dirty
      ensures Valid() && dirty && n == |p| && |buf| == if off + |p| > |old(buf)| then off + |p| else |old(buf)|
      ensures buf[off..off + |p|] == p
      ensures forall i :: 0 <= i < |buf| && !(off <= i < off + |p|) ==> buf[i] == if i < |old(buf)| then old(buf)[i] else 0
    {
      var need := off + |p|;
      if need > |buf| {
        buf := buf + seq(need - |buf|, _ => 0);
      }
      buf := buf[..off] + p + buf[off + |p|..];
      dirty := true;
      n := |p|;
    }

    method Resize(n: nat)
      requires Valid()
      modifies this`buf, this`dirty
      ensures Valid() && dirty && |buf| == n
      ensures forall i :: 0 <= i < n ==> buf[i] == if i < |old(buf)| then old(buf)[i] else 0
    {
      if n < |buf| {
        buf := buf[..n];
      } else if n > |buf| {
        buf := buf + seq(n - |buf|, _ => 0);
      }
      dirty := true;
    }

    /** The mount's rename of an open file moves its binding. */
    method Rebind(parent: InodeID, newName: string)
      requires Valid() && node.Some?
      modifies this`node
      ensures Valid() && node == Some(NodeRef(old(node).value.ino, parent, newName))
    {
      node := Some(node.value.(parent := parent, name := newName));
    }

    /** An open file that is renamed and then written and flushed is written under its new name. */
    method RenameWriteFlush(repo: Repo, s: NS, parent: InodeID, newName: string, p: Bytes, off: nat, now: Time)
      returns (ok: bool, s': NS, content: Content)
      requires Valid() && repo.Valid() && node.Some? && node.value.ino != 0 && newName != "" && s.next + 1 !in s.inode
      requires Slot(parent, newName) in s.dentry && s.dentry[Slot(parent, newName)] == node.value.ino
      modifies this, repo, repo.packer
      ensures ok ==> OnlyRecord(s, s', old(node).value.ino) && old(node).value.ino in s'.inode
      ensures ok ==> s'.inode[old(node).value.ino].size == |buf| && s'.inode[old(node).value.ino].content == content
      ensures ok && CollisionFree(repo.sum, buf, repo.chunkSize) && (!content.ByManifest? || WidthsFit(buf, repo.chunkSize)) ==>
                ReadContent(repo.sum, repo.st, content) == Some(buf)
      ensures off + |p| <= |buf| && buf[off..off + |p|] == p
    {
      Rebind(parent, newName);
      var _ := WriteAt(p, off);
      ok, s', content := Commit(repo, s, s, false, false, Answered, now);
    }

    /** The record a commit sends; zero-based fields are those the authority fills in. */
    function RecordFor(content: Content, now: Time): InodeRecord
      reads this
    {
      InodeRecord(false, if mode.Some? then mode.value % 4096 else DEFAULT_MODE, uid, gid, |buf|, now, 0, 0, 1, content, Plain)
    }

    /** The name is the one the open file was last renamed to, if the mount knows any, else the one it was opened by. */
    ghost predicate LandsAt(seen: NS, s: NS, s': NS, node: Option<NodeRef>, lookupFails: bool, content: Content, now: Time)
      reads this`buf
    {
      var perm := if mode.Some? then mode.value % 4096 else 420;
      if node.Some? && node.value.name != "" then
        Lands(seen, s, s', node, Slot(node.value.parent, node.value.name), lookupFails, content, |buf|, perm, uid, gid, now)
      else
        Lands(seen, s, s', node, Slot(dir, name), lookupFails, content, |buf|, perm, uid, gid, now)
    }

    /**
     One flush. Nothing is sent unless the buffer changed since the last commit; whatever fails leaves the session
     dirty; success means the authority has the buffer, its length and its time, under the name the file has now. The
     lookup is answered in `seen`, the commit in `s`.
     */
    method Commit(repo: Repo, seen: NS, s: NS, storeFails: bool, lookupFails: bool, reply: Reply, now: Time)
      returns (ok: bool, s': NS, content: Content)
      requires Valid() && repo.Valid()
      modifies this`dirty, this`committed, repo, repo.packer
      ensures Valid() && repo.Valid() && Kept(old(repo.st), repo.st)
      ensures ok <==> !dirty
      ensures !old(dirty) ==> ok && s' == s && repo.st == old(repo.st)
      ensures ok <==> !old(dirty) || (!storeFails && reply == Answered && Flush(seen, s, node, Target(node, dir, name), RecordFor(content, now), lookupFails, now).Ok?)
      ensures storeFails || reply == Unsent ==> s' == s
      ensures reply == Unanswered && s' == s && old(dirty) && !storeFails ==>
                var r := Flush(seen, s, node, Target(node, dir, name), RecordFor(content, now), lookupFails, now); r.Err? || r == Ok(s)
      ensures ok && old(dirty) ==>
                && committed == buf
                && (CollisionFree(repo.sum, buf, repo.chunkSize) && (!content.ByManifest? || WidthsFit(buf, repo.chunkSize)) ==>
                      ReadContent(repo.sum, repo.st, content) == Some(buf))
                && Flush(seen, s, node, Target(node, dir, name), RecordFor(content, now), lookupFails, now) == Ok(s')
      ensures s.next + 1 !in s.inode && ((ok && old(dirty)) || s' != s) ==> LandsAt(seen, s, s', node, lookupFails, content, now)
      ensures ok && old(dirty) && node.Some? && node.value.ino != 0 && !lookupFails
              && Undisturbed(seen, s, Target(node, dir, name)) ==>
                && OnlyRecord(s, s', node.value.ino) && node.value.ino in s'.inode
                && s'.inode[node.value.ino].size == |buf| && s'.inode[node.value.ino].mtime == now
                && (CollisionFree(repo.sum, buf, repo.chunkSize) && (!content.ByManifest? || WidthsFit(buf, repo.chunkSize)) ==>
                      ReadContent(repo.sum, repo.st, s'.inode[node.value.ino].content) == Some(buf))
      ensures !ok ==> s' == s || Flush(seen, s, node, Target(node, dir, name), RecordFor(content, now), lookupFails, now) == Ok(s')
    {
      hide Lands, Flush, OnlyRecord, Undisturbed, ReadContent, CollisionFree, WidthsFit, repo.Valid, Refers, AllLocated;
      ok, s', content := true, s, NoContent;
      if !dirty { return; }
      dirty := false;
      if storeFails {
        dirty := true;
        return false, s, content;
      }
      content := repo.StoreAndFlush(buf, now);
      var rec := RecordFor(content, now);
      var target := Target(node, dir, name);
      var r := Flush(seen, s, node, target, rec, lookupFails, now);
      if reply == Unsent || r.Err? {
        dirty := true;
        return false, s, content;
      }
      s' := r.value;
      if s.next + 1 !in s.inode {
        FlushLands(seen, s, node, target, rec, lookupFails, now);
      }
      if reply == Unanswered {
        dirty := true;
        return false, s', content;
      }
      committed := buf;
      if node.Some? && node.value.ino != 0 && !lookupFails && Undisturbed(seen, s, target) {
        FlushKeepsNamespace(seen, s, node.value, target, rec, now);
      }
    }
  }
}
