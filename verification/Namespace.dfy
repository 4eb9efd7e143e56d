/**
 The metadata store of pkg/metadb as a value, and each of its transactions as a function on that value.
 A transaction that fails returns an error and no state: bbolt discards everything its closure wrote.
 */
module Namespace {
  import opened Base

  type InodeID = nat

  const ROOT: InodeID := 1
  const MAX_NAME_LEN := 255

  datatype Content = NoContent | Inline(chunk: ChunkID) | ByManifest(manifest: ManifestID)

  datatype Kind = Plain | Special(typ: nat, rdev: nat) | Symlink(target: string)

  datatype InodeRecord = InodeRecord(
    isDir: bool, mode: nat, uid: nat, gid: nat, size: nat,
    mtime: Time, atime: Time, ctime: Time, nlink: nat, content: Content, kind: Kind)

  /** The key of a dentry: a name inside a directory. */
  datatype Slot = Slot(dir: InodeID, name: string)

  datatype Grave = Grave(at: Time, id: InodeID)

  /** A limit of zero means unlimited. */
  datatype Quota = Quota(bytesUsed: nat, inodesUsed: nat, bytesLimit: nat, inodesLimit: nat)

  type Dentries = map<Slot, InodeID>

  /** The dentry, inode, graveyard and quota buckets, and the inode sequence. */
  datatype NS = NS(dentry: Dentries, inode: map<InodeID, InodeRecord>, graves: set<Grave>, quota: Quota, next: nat)

  datatype Error = NotFound | Exists | NotDir | IsDirectory | QuotaExceeded | NameTooLong | NotEmpty | InvalidRename

  // --- quota -----------------------------------------------------------------

  function AddDelta(u: nat, delta: int): nat {
    if u + delta < 0 then 0 else u + delta
  }

  predicate OverQuota(q: Quota, byteDelta: int, inodeDelta: int) {
    || (q.bytesLimit > 0 && byteDelta > 0 && AddDelta(q.bytesUsed, byteDelta) > q.bytesLimit)
    || (q.inodesLimit > 0 && inodeDelta > 0 && AddDelta(q.inodesUsed, inodeDelta) > q.inodesLimit)
  }

  function ApplyQuota(q: Quota, byteDelta: int, inodeDelta: int): Result<Quota, Error> {
    if OverQuota(q, byteDelta, inodeDelta) then Err(QuotaExceeded)
    else Ok(q.(bytesUsed := AddDelta(q.bytesUsed, byteDelta), inodesUsed := AddDelta(q.inodesUsed, inodeDelta)))
  }

  // --- pieces of transactions ------------------------------------------------

  function GetInode(s: NS, id: InodeID): Result<InodeRecord, Error> {
    if id in s.inode then Ok(s.inode[id]) else Err(NotFound)
  }

  function Lookup(s: NS, dir: InodeID, name: string): Result<InodeID, Error> {
    if Slot(dir, name) in s.dentry then Ok(s.dentry[Slot(dir, name)]) else Err(NotFound)
  }

  function PutInode(s: NS, id: InodeID, rec: InodeRecord): NS {
    s.(inode := s.inode[id := rec])
  }

  function TouchDir(s: NS, dir: InodeID, now: Time): Result<NS, Error> {
    var rec :- GetInode(s, dir);
    Ok(PutInode(s, dir, rec.(mtime := now, ctime := now)))
  }

  /** A directory's own count never falls below the two links every directory has. */
  function AdjustDirLinks(s: NS, dir: InodeID, delta: int): Result<NS, Error> {
    var rec :- GetInode(s, dir);
    if !rec.isDir then Ok(s)
    else Ok(PutInode(s, dir, rec.(nlink := if rec.nlink + delta < 2 then 2 else rec.nlink + delta)))
  }

  function CheckName(name: string): Result<(), Error> {
    if |name| > MAX_NAME_LEN then Err(NameTooLong) else Ok(())
  }

  function SetDentry(s: NS, dir: InodeID, name: string, child: InodeID, now: Time): Result<NS, Error> {
    var _ :- CheckName(name);
    var s1 :- TouchDir(s, dir, now);
    Ok(s1.(dentry := s1.dentry[Slot(dir, name) := child]))
  }

  function RequireDir(s: NS, dir: InodeID): Result<(), Error> {
    var rec :- GetInode(s, dir);
    if rec.isDir then Ok(()) else Err(NotDir)
  }

  /** One reference to `id` goes away; the last one sends it to the graveyard and returns its quota. */
  function DropLink(s: NS, id: InodeID, rec: InodeRecord, at: Time): Result<NS, Error> {
    if !rec.isDir && rec.nlink > 1 then
      Ok(PutInode(s, id, rec.(nlink := rec.nlink - 1, ctime := at)))
    else
      var q :- ApplyQuota(s.quota, 0 - rec.size, -1);
      Ok(PutInode(s, id, rec.(nlink := 0, ctime := at)).(quota := q, graves := s.graves + {Grave(at, id)}))
  }

  // --- transactions ----------------------------------------------------------

  function RemoveEntry(s: NS, dir: InodeID, name: string, at: Time): Result<NS, Error> {
    var id :- Lookup(s, dir, name);
    var rec :- GetInode(s, id);
    var s1 :- TouchDir(s.(dentry := s.dentry - {Slot(dir, name)}), dir, at);
    var s2 :- if rec.isDir then AdjustDirLinks(s1, dir, -1) else Ok(s1);
    DropLink(s2, id, rec, at)
  }

  function Link(s: NS, dir: InodeID, name: string, target: InodeID, now: Time): Result<NS, Error> {
    var rec :- GetInode(s, target);
    if rec.isDir then Err(IsDirectory) else
    var _ :- RequireDir(s, dir);
    if Slot(dir, name) in s.dentry then Err(Exists) else
    var count := if rec.nlink == 0 then 1 else rec.nlink;
    SetDentry(PutInode(s, target, rec.(nlink := count + 1, ctime := now)), dir, name, target, now)
  }

  function PublishFile(s: NS, dir: InodeID, name: string, rec: InodeRecord, now: Time): Result<NS, Error> {
    var _ :- RequireDir(s, dir);
    if Slot(dir, name) in s.dentry then Err(Exists) else
    var id := s.next + 1;
    var q :- ApplyQuota(s.quota, rec.size, 1);
    SetDentry(PutInode(s, id, rec).(quota := q, next := id), dir, name, id, now)
  }

  /** The record an overwrite stores: the caller's content under the existing identity. */
  function Overwritten(existing: InodeRecord, rec: InodeRecord, now: Time): InodeRecord {
    rec.(nlink := existing.nlink, mode := existing.mode, uid := existing.uid, gid := existing.gid,
         ctime := now, atime := existing.atime)
  }

  function CommitFile(s: NS, dir: InodeID, name: string, rec: InodeRecord, now: Time): Result<NS, Error> {
    var _ :- RequireDir(s, dir);
    if Slot(dir, name) in s.dentry then
      var id := s.dentry[Slot(dir, name)];
      var existing :- GetInode(s, id);
      if existing.isDir then Err(IsDirectory) else
      var q :- ApplyQuota(s.quota, rec.size - existing.size, 0);
      Ok(PutInode(s, id, Overwritten(existing, rec, now)).(quota := q))
    else
      var id := s.next + 1;
      var q :- ApplyQuota(s.quota, rec.size, 1);
      var rec' := if rec.atime == 0 then rec.(atime := rec.mtime) else rec;
      SetDentry(PutInode(s, id, rec').(quota := q, next := id), dir, name, id, now)
  }

  function CommitMkdir(s: NS, dir: InodeID, name: string, rec: InodeRecord, now: Time): Result<NS, Error> {
    var _ :- RequireDir(s, dir);
    if Slot(dir, name) in s.dentry then Err(Exists) else
    var id := s.next + 1;
    var q :- ApplyQuota(s.quota, 0, 1);
    var s1 :- SetDentry(PutInode(s, id, rec).(quota := q, next := id), dir, name, id, now);
    AdjustDirLinks(s1, dir, 1)
  }

  /** A write to an unlinked but open file: content, size and times change, nothing else does. */
  function UpdateInodeContent(s: NS, id: InodeID, rec: InodeRecord): Result<NS, Error> {
    var existing :- GetInode(s, id);
    Ok(PutInode(s, id, existing.(size := rec.size, content := rec.content, mtime := rec.mtime, ctime := rec.mtime)))
  }

  /** setattr's mask: a field that is absent is left alone. */
  datatype AttrMutation = AttrMutation(
    mode: Option<nat>, uid: Option<nat>, gid: Option<nat>, mtime: Option<Time>, atime: Option<Time>)

  function Or<T>(o: Option<T>, default: T): T {
    if o.Some? then o.value else default
  }

  /** The permission bits, 0o7777. */
  function PermBits(mode: nat): nat {
    mode % 4096
  }

  /** The mode without set-user-ID and set-group-ID, 0o6000. */
  function ClearSetID(mode: nat): nat {
    mode / 4096 * 4096 + mode % 1024
  }

  function SetAttr(s: NS, id: InodeID, mut: AttrMutation, now: Time): Result<NS, Error> {
    var rec :- GetInode(s, id);
    var mode := if mut.mode.Some? then PermBits(mut.mode.value) else rec.mode;
    var chown := (mut.uid.Some? || mut.gid.Some?) && !rec.isDir;
    Ok(PutInode(s, id, rec.(mode := if chown then ClearSetID(mode) else mode,
                            uid := Or(mut.uid, rec.uid), gid := Or(mut.gid, rec.gid),
                            mtime := Or(mut.mtime, rec.mtime), atime := Or(mut.atime, rec.atime), ctime := now)))
  }

  function SetQuotaLimits(s: NS, bytesLimit: nat, inodesLimit: nat): NS {
    s.(quota := s.quota.(bytesLimit := bytesLimit, inodesLimit := inodesLimit))
  }

  /** Sweep's two writes to the namespace: a swept inode's record, then its graveyard entry. */
  function DeleteInode(s: NS, id: InodeID): NS {
    s.(inode := s.inode - {id})
  }

  function RemoveGrave(s: NS, g: Grave): NS {
    s.(graves := s.graves - {g})
  }

  /** The raw dentry walk from `dir` along `path`. */
  function Walk(d: Dentries, dir: InodeID, path: seq<string>): Option<InodeID>
    decreases |path|
  {
    if path == [] then Some(dir)
    else if Slot(dir, path[0]) in d then Walk(d, d[Slot(dir, path[0])], path[1..])
    else None
  }

  /** `x` is `anc` or lies somewhere below it. */
  ghost predicate Within(d: Dentries, anc: InodeID, x: InodeID) {
    exists path :: Walk(d, anc, path) == Some(x)
  }

  predicate HasEntries(d: Dentries, dir: InodeID) {
    exists k <- d.Keys :: k.dir == dir
  }

  /** The displaced target's part of a rename: type and emptiness rules, then one link dropped. */
  function Displace(s: NS, src: InodeRecord, newDir: InodeID, newName: string, at: Time): Result<NS, Error> {
    if Slot(newDir, newName) !in s.dentry then Ok(s) else
    var dst := s.dentry[Slot(newDir, newName)];
    var dstRec :- GetInode(s, dst);
    if dstRec.isDir && !src.isDir then Err(IsDirectory)
    else if !dstRec.isDir && src.isDir then Err(NotDir)
    else if dstRec.isDir && HasEntries(s.dentry, dst) then Err(NotEmpty)
    else DropLink(s, dst, dstRec, at)
  }

  function MoveDirLinks(s: NS, isDir: bool, oldDir: InodeID, newDir: InodeID): Result<NS, Error> {
    if isDir && oldDir != newDir then
      var s1 :- AdjustDirLinks(s, oldDir, -1);
      AdjustDirLinks(s1, newDir, 1)
    else Ok(s)
  }

  /** The second half of a rename: the record written back is the one read before anything was displaced. */
  function MoveBinding(s: NS, src: InodeID, srcRec: InodeRecord, from: Slot, to: Slot, at: Time): Result<NS, Error> {
    var s1 :- TouchDir(s.(dentry := s.dentry - {from}), from.dir, at);
    var s2 :- MoveDirLinks(s1, srcRec.isDir, from.dir, to.dir);
    SetDentry(PutInode(s2, src, srcRec.(ctime := at)), to.dir, to.name, src, at)
  }

  /**
   The descendant check is stated here by what it means: newDir lies inside the moved directory. The source
   computes it by walking up from newDir, as MetaDB.DB.CheckNotDescendant does.
   */
  ghost function Rename(s: NS, oldDir: InodeID, oldName: string, newDir: InodeID, newName: string, at: Time)
    : Result<NS, Error>
  {
    if oldDir == newDir && oldName == newName then Ok(s) else
    var _ :- CheckName(newName);
    var src :- Lookup(s, oldDir, oldName);
    var srcRec :- GetInode(s, src);
    var _ :- RequireDir(s, newDir);
    if srcRec.isDir && Within(s.dentry, src, newDir) then Err(InvalidRename) else
    var s1 :- Displace(s, srcRec, newDir, newName, at);
    MoveBinding(s1, src, srcRec, Slot(oldDir, oldName), Slot(newDir, newName), at)
  }

  /** Resolve's loop from `cur`: empty components are skipped and every inode on the way must have a record. */
  function ResolveFrom(s: NS, cur: InodeID, path: seq<string>): Result<InodeID, Error>
    decreases |path|
  {
    if path == [] then Ok(cur)
    else if path[0] == "" then ResolveFrom(s, cur, path[1..])
    else
      var id :- Lookup(s, cur, path[0]);
      var _ :- GetInode(s, id);
      ResolveFrom(s, id, path[1..])
  }
}
