/** The shape of the namespace: one rooted tree of directories, and what a rename does to it. */
module TreeShape {
  import opened Base
  import opened Namespace

  ghost predicate Named(d: Dentries, id: InodeID) {
    exists k :: k in d && d[k] == id
  }

  ghost predicate LiveDir(s: NS, dir: InodeID) {
    dir == ROOT || Named(s.dentry, dir)
  }

  predicate IsDir(s: NS, id: InodeID) {
    id in s.inode && s.inode[id].isDir
  }

  /** A dentry hangs off a live directory and names an inode that exists and is not the root. */
  ghost predicate Anchored(s: NS, k: Slot)
    requires k in s.dentry
  {
    s.dentry[k] != ROOT && s.dentry[k] in s.inode && IsDir(s, k.dir) && LiveDir(s, k.dir)
  }

  /** Every directory ranks above the directory holding it, so no directory is below itself. */
  ghost predicate Ranked(s: NS, rank: InodeID -> nat) {
    forall k :: k in s.dentry && IsDir(s, s.dentry[k]) ==> rank(k.dir) < rank(s.dentry[k])
  }

  ghost predicate OneParent(s: NS) {
    forall k, k' :: k in s.dentry && k' in s.dentry && s.dentry[k] == s.dentry[k'] && IsDir(s, s.dentry[k]) ==> k == k'
  }

  ghost predicate Tree(s: NS) {
    && IsDir(s, ROOT)
    && (forall k :: k in s.dentry ==> Anchored(s, k))
    && OneParent(s)
    && exists rank :: Ranked(s, rank)
  }

  // --- walks -----------------------------------------------------------------

  lemma {:induction false} WalkConcat(d: Dentries, a: InodeID, p: seq<string>, q: seq<string>)
    ensures Walk(d, a, p + q) == (match Walk(d, a, p) case None => None case Some(x) => Walk(d, x, q))
    decreases |p|
  {
    if p == [] {
      assert p + q == q;
    } else {
      assert (p + q)[1..] == p[1..] + q;
      if Slot(a, p[0]) in d {
        WalkConcat(d, d[Slot(a, p[0])], p[1..], q);
      }
    }
  }

  lemma WithinSelf(d: Dentries, a: InodeID)
    ensures Within(d, a, a)
  {
    assert Walk(d, a, []) == Some(a);
  }

  /** Below a dentry of something within `a` is within `a`. */
  lemma WithinChild(d: Dentries, a: InodeID, k: Slot)
    requires k in d && Within(d, a, k.dir)
    ensures Within(d, a, d[k])
  {
    var p :| Walk(d, a, p) == Some(k.dir);
    WalkConcat(d, a, p, [k.name]);
    assert k == Slot(k.dir, k.name);
    assert Walk(d, d[k], []) == Some(d[k]);
    assert Walk(d, a, p + [k.name]) == Some(d[k]);
  }

  lemma WithinTransitive(d: Dentries, a: InodeID, b: InodeID, c: InodeID)
    requires Within(d, a, b) && Within(d, b, c)
    ensures Within(d, a, c)
  {
    var p :| Walk(d, a, p) == Some(b);
    var q :| Walk(d, b, q) == Some(c);
    WalkConcat(d, a, p, q);
    assert Walk(d, a, p + q) == Some(c);
  }

  /** Whatever lies properly below `a` has a last dentry whose directory is still within `a`. */
  lemma WithinParent(d: Dentries, a: InodeID, x: InodeID) returns (k: Slot)
    requires Within(d, a, x) && a != x
    ensures k in d && d[k] == x && Within(d, a, k.dir)
  {
    var p :| Walk(d, a, p) == Some(x);
    var n := |p| - 1;
    WalkConcat(d, a, p[..n], p[n..]);
    assert p == p[..n] + p[n..];
    var y := Walk(d, a, p[..n]).value;
    k := Slot(y, p[n]);
    assert p[n..][1..] == [];
    assert Walk(d, a, p[..n]) == Some(y);
  }

  lemma {:induction false} WalkMonotone(d: Dentries, d': Dentries, a: InodeID, p: seq<string>)
    requires forall k :: k in d ==> k in d' && d'[k] == d[k]
    requires Walk(d, a, p).Some?
    ensures Walk(d', a, p) == Walk(d, a, p)
    decreases |p|
  {
    if p != [] {
      WalkMonotone(d, d', d[Slot(a, p[0])], p[1..]);
    }
  }

  lemma {:induction false} WalkRanked(s: NS, rank: InodeID -> nat, a: InodeID, p: seq<string>)
    requires Tree(s) && Ranked(s, rank)
    requires Walk(s.dentry, a, p).Some? && IsDir(s, Walk(s.dentry, a, p).value)
    ensures rank(a) + |p| <= rank(Walk(s.dentry, a, p).value)
    decreases |p|
  {
    if p != [] {
      var k := Slot(a, p[0]);
      WalkRanked(s, rank, s.dentry[k], p[1..]);
      if |p| > 1 {
        assert Anchored(s, Slot(s.dentry[k], p[1]));
      }
      assert IsDir(s, s.dentry[k]);
    }
  }

  /** No directory is its own proper descendant. */
  lemma TreeIsAcyclic(s: NS, a: InodeID, p: seq<string>)
    requires Tree(s) && IsDir(s, a) && p != []
    ensures Walk(s.dentry, a, p) != Some(a)
  {
    if Walk(s.dentry, a, p) == Some(a) {
      var rank :| Ranked(s, rank);
      WalkRanked(s, rank, a, p);
    }
  }

  /** The parent of a directory, or of anything, is never within it. */
  lemma ParentNotWithin(s: NS, k: Slot)
    requires Tree(s) && k in s.dentry
    ensures !Within(s.dentry, s.dentry[k], k.dir)
  {
    assert Anchored(s, k);
    if Within(s.dentry, s.dentry[k], k.dir) {
      var p :| Walk(s.dentry, s.dentry[k], p) == Some(k.dir);
      assert k == Slot(k.dir, k.name);
      assert ([k.name] + p)[1..] == p;
      TreeIsAcyclic(s, k.dir, [k.name] + p);
    }
  }

  /** Nothing but itself is within an inode that holds no entries, a file in particular. */
  lemma WithinLeaf(d: Dentries, a: InodeID, x: InodeID)
    requires !HasEntries(d, a) && Within(d, a, x)
    ensures x == a
  {
    var p :| Walk(d, a, p) == Some(x);
  }

  lemma FilesHoldNothing(s: NS, id: InodeID)
    requires Tree(s) && !IsDir(s, id)
    ensures !HasEntries(s.dentry, id)
  {
    assert forall k :: k in s.dentry ==> Anchored(s, k);
  }

  /** Every name, and every directory holding one, is reached from the root. */
  lemma {:induction false} NamedIsReachable(s: NS, rank: InodeID -> nat, id: InodeID)
    requires Tree(s) && Ranked(s, rank) && LiveDir(s, id)
    ensures Within(s.dentry, ROOT, id)
    decreases if IsDir(s, id) then 0 else 1, rank(id)
  {
    if id == ROOT {
      WithinSelf(s.dentry, ROOT);
    } else {
      var k :| k in s.dentry && s.dentry[k] == id;
      assert Anchored(s, k);
      NamedIsReachable(s, rank, k.dir);
      WithinChild(s.dentry, ROOT, k);
    }
  }

  /** The live inodes are exactly the ones the root reaches. */
  lemma ReachableIffNamed(s: NS, id: InodeID)
    requires Tree(s)
    ensures Within(s.dentry, ROOT, id) <==> LiveDir(s, id)
  {
    if LiveDir(s, id) {
      var rank :| Ranked(s, rank);
      NamedIsReachable(s, rank, id);
    }
    if Within(s.dentry, ROOT, id) && id != ROOT {
      var k := WithinParent(s.dentry, ROOT, id);
    }
  }

  // --- elementary changes that keep the tree ----------------------------------

  ghost predicate SameKinds(s: NS, s': NS) {
    forall id :: id in s.inode ==> id in s'.inode && s'.inode[id].isDir == s.inode[id].isDir
  }

  lemma TreeSameNames(s: NS, s': NS)
    requires Tree(s) && s'.dentry == s.dentry && SameKinds(s, s')
    ensures Tree(s')
  {
    var rank :| Ranked(s, rank);
    forall k | k in s'.dentry ensures Anchored(s', k) {
      assert Anchored(s, k);
    }
    assert forall k :: k in s'.dentry ==> Anchored(s, k);
    assert Ranked(s', rank);
  }

  /** A new name for a file, or for a directory that has neither names nor entries yet. */
  ghost predicate AddsName(s: NS, s': NS, k: Slot, id: InodeID) {
    && SameKinds(s, s') && k !in s.dentry && s'.dentry == s.dentry[k := id]
    && id in s'.inode && id != ROOT && IsDir(s, k.dir) && LiveDir(s, k.dir)
    && (IsDir(s', id) ==> !Named(s.dentry, id) && !HasEntries(s.dentry, id) && id != k.dir)
  }

  lemma AddNameAnchored(s: NS, s': NS, k: Slot, id: InodeID, j: Slot)
    requires Tree(s) && AddsName(s, s', k, id) && j in s'.dentry
    ensures Anchored(s', j)
  {
    if j != k {
      assert Anchored(s, j);
    }
    if j.dir != ROOT {
      var i :| i in s.dentry && s.dentry[i] == j.dir;
      assert s'.dentry[i] == j.dir;
    }
  }

  lemma AddNameRanked(s: NS, s': NS, k: Slot, id: InodeID)
    requires Tree(s) && AddsName(s, s', k, id)
    ensures exists rank :: Ranked(s', rank)
  {
    var rank :| Ranked(s, rank);
    var rank' := x => if x == id && IsDir(s', id) then rank(k.dir) + 1 else rank(x);
    forall j | j in s'.dentry && IsDir(s', s'.dentry[j]) ensures rank'(j.dir) < rank'(s'.dentry[j]) {
      if j != k {
        assert j in s.dentry.Keys && Anchored(s, j);
      }
    }
    assert Ranked(s', rank');
  }

  lemma TreeAddName(s: NS, s': NS, k: Slot, id: InodeID)
    requires Tree(s) && AddsName(s, s', k, id)
    ensures Tree(s')
  {
    forall j | j in s'.dentry ensures Anchored(s', j) {
      AddNameAnchored(s, s', k, id, j);
    }
    assert OneParent(s') by {
      assert forall j :: j in s.dentry ==> Anchored(s, j);
    }
    AddNameRanked(s, s', k, id);
  }

  /** A name goes, and what it named holds no entries. */
  lemma TreeDropName(s: NS, s': NS, k: Slot)
    requires Tree(s) && SameKinds(s, s')
    requires k in s.dentry && s'.dentry == s.dentry - {k}
    requires !HasEntries(s.dentry, s.dentry[k])
    ensures Tree(s')
  {
    var rank :| Ranked(s, rank);
    forall j | j in s'.dentry ensures Anchored(s', j) {
      assert Anchored(s, j);
      if j.dir != ROOT {
        var i :| i in s.dentry && s.dentry[i] == j.dir;
        assert j in s.dentry.Keys && i != k;
        assert s'.dentry[i] == j.dir;
      }
    }
    assert OneParent(s') && Ranked(s', rank) by {
      assert forall j :: j in s.dentry ==> Anchored(s, j);
    }
  }

  /** A name moves, with everything below it, to a live directory that is not below it. */
  ghost predicate MovesName(s: NS, s': NS, from: Slot, to: Slot) {
    && SameKinds(s, s') && from in s.dentry && to !in s.dentry
    && s'.dentry == (s.dentry - {from})[to := s.dentry[from]]
    && IsDir(s, to.dir) && LiveDir(s, to.dir)
    && (IsDir(s, s.dentry[from]) ==> !Within(s.dentry, s.dentry[from], to.dir))
  }

  lemma MoveNameAnchored(s: NS, s': NS, from: Slot, to: Slot, j: Slot)
    requires Tree(s) && MovesName(s, s', from, to) && j in s'.dentry
    ensures Anchored(s', j)
  {
    assert Anchored(s, if j == to then from else j);
    if j.dir == s.dentry[from] {
      assert s'.dentry[to] == j.dir;
    } else if j.dir != ROOT {
      var i :| i in s.dentry && s.dentry[i] == j.dir;
      assert s'.dentry[i] == j.dir;
    }
  }

  /** The ranks of a moved subtree, lifted above its new parent. */
  ghost function Lifted(d: Dentries, id: InodeID, above: nat, rank: InodeID -> nat): InodeID -> nat {
    x => if Within(d, id, x) then rank(x) + above + 1 else rank(x)
  }

  lemma MoveNameRanked(s: NS, s': NS, from: Slot, to: Slot, rank: InodeID -> nat, j: Slot)
    requires Tree(s) && MovesName(s, s', from, to) && Ranked(s, rank)
    requires j in s'.dentry && IsDir(s', s'.dentry[j])
    ensures var rank' := Lifted(s.dentry, s.dentry[from], rank(to.dir), rank);
            rank'(j.dir) < rank'(s'.dentry[j])
  {
    var id := s.dentry[from];
    if j == to {
      assert Anchored(s, from);
      WithinSelf(s.dentry, id);
    } else {
      assert Anchored(s, j);
      if Within(s.dentry, id, j.dir) {
        WithinChild(s.dentry, id, j);
      } else if Within(s.dentry, id, s.dentry[j]) {
        assert s.dentry[j] != id;
        var i := WithinParent(s.dentry, id, s.dentry[j]);
      }
    }
  }

  lemma TreeMoveName(s: NS, s': NS, from: Slot, to: Slot)
    requires Tree(s) && MovesName(s, s', from, to)
    ensures Tree(s')
  {
    forall j | j in s'.dentry ensures Anchored(s', j) {
      MoveNameAnchored(s, s', from, to, j);
    }
    assert OneParent(s') by {
      assert forall j :: j in s.dentry ==> Anchored(s, j);
    }
    var rank :| Ranked(s, rank);
    forall j | j in s'.dentry && IsDir(s', s'.dentry[j])
      ensures Lifted(s.dentry, s.dentry[from], rank(to.dir), rank)(j.dir)
              < Lifted(s.dentry, s.dentry[from], rank(to.dir), rank)(s'.dentry[j])
    {
      MoveNameRanked(s, s', from, to, rank, j);
    }
    assert Ranked(s', Lifted(s.dentry, s.dentry[from], rank(to.dir), rank));
  }

  // --- rename ----------------------------------------------------------------

  /** A rename that did something, with the inode it moved and the one it displaced. */
  ghost predicate Renamed(s: NS, oldDir: InodeID, oldName: string, newDir: InodeID, newName: string, at: Time, s': NS) {
    && Slot(oldDir, oldName) != Slot(newDir, newName)
    && Rename(s, oldDir, oldName, newDir, newName, at) == Ok(s')
  }

  /** Which inodes there are, and which of them are directories. */
  ghost function Kinds(inode: map<InodeID, InodeRecord>): map<InodeID, bool> {
    map id | id in inode :: inode[id].isDir
  }

  lemma KindsAgree(s: NS, s': NS)
    requires Kinds(s'.inode) == Kinds(s.inode)
    ensures s'.inode.Keys == s.inode.Keys && SameKinds(s, s')
  {
    assert forall id :: id in s.inode <==> id in Kinds(s.inode);
    assert forall id :: id in s'.inode <==> id in Kinds(s'.inode);
    forall id | id in s.inode ensures id in s'.inode && s'.inode[id].isDir == s.inode[id].isDir {
      assert Kinds(s'.inode)[id] == Kinds(s.inode)[id];
    }
  }

  /** What the accounts need of an inode record. A directory's own count plays no part in them. */
  datatype Vital = Vital(isDir: bool, size: nat, links: nat)

  function VitalOf(rec: InodeRecord): Vital {
    Vital(rec.isDir, rec.size, if rec.isDir then 0 else rec.nlink)
  }

  ghost function VitalsOf(inode: map<InodeID, InodeRecord>): map<InodeID, Vital> {
    map id | id in inode :: VitalOf(inode[id])
  }

  lemma PutVital(inode: map<InodeID, InodeRecord>, id: InodeID, rec: InodeRecord)
    ensures VitalsOf(inode[id := rec]) == VitalsOf(inode)[id := VitalOf(rec)]
  {
    assert VitalsOf(inode[id := rec]).Keys == VitalsOf(inode)[id := VitalOf(rec)].Keys;
  }

  /** Nothing changed but times and directories' own counts. */
  ghost predicate Retimed(s: NS, s': NS) {
    s' == s.(inode := s'.inode) && VitalsOf(s'.inode) == VitalsOf(s.inode)
  }

  lemma RetimedKinds(s: NS, s': NS)
    requires Retimed(s, s')
    ensures Kinds(s'.inode) == Kinds(s.inode)
  {
    forall id ensures (id in s'.inode <==> id in s.inode)
              ensures id in s.inode && id in s'.inode ==> s'.inode[id].isDir == s.inode[id].isDir
    {
      assert id in s.inode <==> id in VitalsOf(s.inode);
      assert id in s'.inode <==> id in VitalsOf(s'.inode);
      assert id in s.inode && id in s'.inode ==> VitalsOf(s'.inode)[id] == VitalsOf(s.inode)[id];
    }
  }

  lemma PutRetimes(s: NS, id: InodeID, rec: InodeRecord)
    requires id in s.inode && VitalOf(rec) == VitalOf(s.inode[id])
    ensures Retimed(s, PutInode(s, id, rec))
  {
    PutVital(s.inode, id, rec);
    assert VitalsOf(s.inode)[id := VitalOf(rec)] == VitalsOf(s.inode);
  }

  lemma TouchDirRetimes(s: NS, dir: InodeID, at: Time)
    requires TouchDir(s, dir, at).Ok?
    ensures Retimed(s, TouchDir(s, dir, at).value)
  {
    PutRetimes(s, dir, s.inode[dir].(mtime := at, ctime := at));
  }

  lemma AdjustDirLinksRetimes(s: NS, dir: InodeID, delta: int)
    requires AdjustDirLinks(s, dir, delta).Ok?
    ensures Retimed(s, AdjustDirLinks(s, dir, delta).value)
  {
    PutRetimes(s, dir, AdjustDirLinks(s, dir, delta).value.inode[dir]);
  }

  lemma MoveDirLinksRetimes(s: NS, isDir: bool, oldDir: InodeID, newDir: InodeID)
    requires MoveDirLinks(s, isDir, oldDir, newDir).Ok?
    ensures Retimed(s, MoveDirLinks(s, isDir, oldDir, newDir).value)
  {
    if isDir && oldDir != newDir {
      AdjustDirLinksRetimes(s, oldDir, -1);
      AdjustDirLinksRetimes(AdjustDirLinks(s, oldDir, -1).value, newDir, 1);
    }
  }

  /** The second half of a rename moves the dentry and writes the source record back, as it was read. */
  lemma MoveBindingShape(s: NS, src: InodeID, srcRec: InodeRecord, from: Slot, to: Slot, at: Time)
    requires MoveBinding(s, src, srcRec, from, to, at).Ok?
    ensures var s' := MoveBinding(s, src, srcRec, from, to, at).value;
            && s' == s.(inode := s'.inode, dentry := (s.dentry - {from})[to := src])
            && VitalsOf(s'.inode) == VitalsOf(s.inode)[src := VitalOf(srcRec)]
  {
    var s0 := s.(dentry := s.dentry - {from});
    TouchDirRetimes(s0, from.dir, at);
    var s1 := TouchDir(s0, from.dir, at).value;
    MoveDirLinksRetimes(s1, srcRec.isDir, from.dir, to.dir);
    var s2 := MoveDirLinks(s1, srcRec.isDir, from.dir, to.dir).value;
    PutVital(s2.inode, src, srcRec.(ctime := at));
    TouchDirRetimes(PutInode(s2, src, srcRec.(ctime := at)), to.dir, at);
  }

  /** Only attributes, counts, graves and quota changed. */
  ghost predicate Relinked(s: NS, s': NS) {
    s'.dentry == s.dentry && Kinds(s'.inode) == Kinds(s.inode) && s'.next == s.next
  }

  lemma PutKeepsKinds(inode: map<InodeID, InodeRecord>, id: InodeID, rec: InodeRecord)
    requires id in inode && inode[id].isDir == rec.isDir
    ensures Kinds(inode[id := rec]) == Kinds(inode)
  {
    assert forall x :: x in Kinds(inode[id := rec]) <==> x in Kinds(inode);
  }

  lemma DropLinkRelinks(s: NS, id: InodeID, rec: InodeRecord, at: Time)
    requires id in s.inode && s.inode[id].isDir == rec.isDir && DropLink(s, id, rec, at).Ok?
    ensures Relinked(s, DropLink(s, id, rec, at).value)
  {
    PutKeepsKinds(s.inode, id, rec.(nlink := 0, ctime := at));
    if rec.nlink > 1 {
      PutKeepsKinds(s.inode, id, rec.(nlink := rec.nlink - 1, ctime := at));
    }
  }

  lemma DisplaceRelinks(s: NS, src: InodeRecord, newDir: InodeID, newName: string, at: Time)
    requires Displace(s, src, newDir, newName, at).Ok?
    ensures Relinked(s, Displace(s, src, newDir, newName, at).value)
  {
    if Slot(newDir, newName) in s.dentry {
      var dst := s.dentry[Slot(newDir, newName)];
      DropLinkRelinks(s, dst, s.inode[dst], at);
    }
  }

  /** What a successful rename does to the buckets, whatever state it started from. */
  lemma RenameShape(s: NS, oldDir: InodeID, oldName: string, newDir: InodeID, newName: string, at: Time, s': NS)
    requires Renamed(s, oldDir, oldName, newDir, newName, at, s')
    ensures var from, to := Slot(oldDir, oldName), Slot(newDir, newName);
            && from in s.dentry && s.dentry[from] in s.inode && IsDir(s, newDir)
            && s'.dentry == (s.dentry - {from})[to := s.dentry[from]]
            && s'.inode.Keys == s.inode.Keys && SameKinds(s, s') && s'.next == s.next
            && (IsDir(s, s.dentry[from]) ==> !Within(s.dentry, s.dentry[from], newDir))
            && (to in s.dentry ==> s.dentry[to] in s.inode && IsDir(s, s.dentry[to]) == IsDir(s, s.dentry[from])
                                   && (IsDir(s, s.dentry[to]) ==> !HasEntries(s.dentry, s.dentry[to])))
  {
    var src := s.dentry[Slot(oldDir, oldName)];
    var s1 := Displace(s, s.inode[src], newDir, newName, at).value;
    DisplaceRelinks(s, s.inode[src], newDir, newName, at);
    KindsAgree(s, s1);
    MoveBindingShape(s1, src, s.inode[src], Slot(oldDir, oldName), Slot(newDir, newName), at);
    PutVital(s1.inode, src, s.inode[src]);
    RetimedKinds(PutInode(s1, src, s.inode[src]).(dentry := s'.dentry), s');
    PutKeepsKinds(s1.inode, src, s.inode[src]);
    KindsAgree(s, s');
  }

  /** What a rename from one slot to another means in a tree. */
  ghost predicate RenameEffect(s: NS, from: Slot, to: Slot, s': NS) {
    && from in s.dentry && s'.dentry == (s.dentry - {from})[to := s.dentry[from]] && from != to
    && s'.inode.Keys == s.inode.Keys && SameKinds(s, s') && s'.next == s.next
    && IsDir(s, to.dir) && IsDir(s, from.dir)
    && !Within(s.dentry, s.dentry[from], to.dir) && !Within(s.dentry, s.dentry[from], from.dir)
    && (to in s.dentry ==> !HasEntries(s.dentry, s.dentry[to]) && IsDir(s, s.dentry[to]) == IsDir(s, s.dentry[from]))
  }

  lemma RenameFacts(s: NS, oldDir: InodeID, oldName: string, newDir: InodeID, newName: string, at: Time, s': NS)
    requires Tree(s) && Renamed(s, oldDir, oldName, newDir, newName, at, s')
    ensures RenameEffect(s, Slot(oldDir, oldName), Slot(newDir, newName), s')
  {
    RenameShape(s, oldDir, oldName, newDir, newName, at, s');
    var from, to := Slot(oldDir, oldName), Slot(newDir, newName);
    assert Anchored(s, from);
    ParentNotWithin(s, from);
    if !IsDir(s, s.dentry[from]) {
      FilesHoldNothing(s, s.dentry[from]);
      if Within(s.dentry, s.dentry[from], newDir) {
        WithinLeaf(s.dentry, s.dentry[from], newDir);
      }
    }
    if to in s.dentry && !IsDir(s, s.dentry[to]) {
      FilesHoldNothing(s, s.dentry[to]);
    }
  }

  lemma DisplaceErrors(s: NS, src: InodeRecord, newDir: InodeID, newName: string, at: Time)
    ensures Displace(s, src, newDir, newName, at) != Err(InvalidRename)
  {
  }

  lemma MoveBindingErrors(s: NS, src: InodeID, srcRec: InodeRecord, from: Slot, to: Slot, at: Time)
    ensures MoveBinding(s, src, srcRec, from, to, at) != Err(InvalidRename)
  {
  }

  /** A directory would move into itself or below. */
  ghost predicate MakesCycle(s: NS, from: Slot, to: Slot) {
    from != to && from in s.dentry && IsDir(s, s.dentry[from]) && Within(s.dentry, s.dentry[from], to.dir)
  }

  /** The descendant check refuses exactly the moves of a directory into itself or below. */
  lemma RenameRefusesExactlyCycles(s: NS, oldDir: InodeID, oldName: string, newDir: InodeID, newName: string, at: Time)
    requires Tree(s)
    ensures Rename(s, oldDir, oldName, newDir, newName, at) == Err(InvalidRename)
            <==> |newName| <= MAX_NAME_LEN && IsDir(s, newDir) && MakesCycle(s, Slot(oldDir, oldName), Slot(newDir, newName))
  {
    var from, to := Slot(oldDir, oldName), Slot(newDir, newName);
    if from in s.dentry && IsDir(s, newDir) && |newName| <= MAX_NAME_LEN {
      var src := s.dentry[from];
      assert Anchored(s, from);
      DisplaceErrors(s, s.inode[src], newDir, newName, at);
      var displaced := Displace(s, s.inode[src], newDir, newName, at);
      if displaced.Ok? {
        MoveBindingErrors(displaced.value, src, s.inode[src], from, to, at);
      }
    }
  }

  lemma StillLive(s: NS, s': NS, k: Slot)
    requires Tree(s) && k in s.dentry && s'.dentry == s.dentry - {k} && LiveDir(s, k.dir)
    ensures LiveDir(s', k.dir)
  {
    if k.dir != ROOT {
      var i :| i in s.dentry && s.dentry[i] == k.dir;
      ParentNotWithin(s, k);
      WithinSelf(s.dentry, k.dir);
      assert s'.dentry[i] == k.dir;
    }
  }

  lemma DropKeepsOutside(d: Dentries, k: Slot, a: InodeID, x: InodeID)
    requires !Within(d, a, x)
    ensures !Within(d - {k}, a, x)
  {
    forall p | Walk(d - {k}, a, p) == Some(x) ensures false {
      WalkMonotone(d - {k}, d, a, p);
    }
  }

  /** Dropping the displaced name first leaves a tree... */
  lemma DisplacedTree(s: NS, from: Slot, to: Slot, s': NS)
    requires Tree(s) && LiveDir(s, to.dir) && RenameEffect(s, from, to, s')
    ensures var s1 := s.(dentry := s.dentry - {to}); Tree(s1) && LiveDir(s1, to.dir)
  {
    var s1 := s.(dentry := s.dentry - {to});
    if to in s.dentry {
      TreeDropName(s, s1, to);
      StillLive(s, s1, to);
    } else {
      assert s1 == s;
    }
  }

  /** ... in which the move is legal. */
  lemma DisplacedMoves(s: NS, from: Slot, to: Slot, s': NS)
    requires RenameEffect(s, from, to, s') && LiveDir(s.(dentry := s.dentry - {to}), to.dir)
    ensures MovesName(s.(dentry := s.dentry - {to}), s', from, to)
  {
    var s1 := s.(dentry := s.dentry - {to});
    DropKeepsOutside(s.dentry, to, s.dentry[from], to.dir);
    assert s'.dentry == (s1.dentry - {from})[to := s1.dentry[from]];
  }

  /** After a rename the directories still form one tree. */
  lemma RenameKeepsTree(s: NS, oldDir: InodeID, oldName: string, newDir: InodeID, newName: string, at: Time, s': NS)
    requires Tree(s) && LiveDir(s, newDir) && Renamed(s, oldDir, oldName, newDir, newName, at, s')
    ensures Tree(s')
  {
    var from, to := Slot(oldDir, oldName), Slot(newDir, newName);
    RenameFacts(s, oldDir, oldName, newDir, newName, at, s');
    DisplacedTree(s, from, to, s');
    DisplacedMoves(s, from, to, s');
    TreeMoveName(s.(dentry := s.dentry - {to}), s', from, to);
  }

  /** A route whose target lies outside everything behind a changed slot resolves as before. */
  lemma {:induction false} ResolveKept(s: NS, s': NS, cur: InodeID, path: seq<string>, target: InodeID)
    requires ResolveFrom(s, cur, path) == Ok(target)
    requires s'.inode.Keys >= s.inode.Keys
    requires forall k :: k in s.dentry && (k !in s'.dentry || s'.dentry[k] != s.dentry[k])
                         ==> !Within(s.dentry, s.dentry[k], target)
    ensures ResolveFrom(s', cur, path) == Ok(target)
    ensures Within(s.dentry, cur, target)
    decreases |path|
  {
    if path == [] {
      WithinSelf(s.dentry, cur);
    } else if path[0] == "" {
      ResolveKept(s, s', cur, path[1..], target);
    } else {
      var k := Slot(cur, path[0]);
      ResolveKept(s, s', s.dentry[k], path[1..], target);
      WithinSelf(s.dentry, cur);
      WithinChild(s.dentry, cur, k);
      WithinTransitive(s.dentry, cur, s.dentry[k], target);
    }
  }

  lemma {:induction false} ResolveBelow(s: NS, s': NS, top: InodeID, x: InodeID, path: seq<string>)
    requires Within(s.dentry, top, x) && s'.inode.Keys == s.inode.Keys
    requires forall y, n :: Within(s.dentry, top, y) ==>
                              && (Slot(y, n) in s.dentry <==> Slot(y, n) in s'.dentry)
                              && (Slot(y, n) in s.dentry ==> s'.dentry[Slot(y, n)] == s.dentry[Slot(y, n)])
    ensures ResolveFrom(s', x, path) == ResolveFrom(s, x, path)
    decreases |path|
  {
    if path != [] {
      if path[0] == "" {
        ResolveBelow(s, s', top, x, path[1..]);
      } else if Slot(x, path[0]) in s.dentry {
        WithinChild(s.dentry, top, Slot(x, path[0]));
        ResolveBelow(s, s', top, s.dentry[Slot(x, path[0])], path[1..]);
      }
    }
  }

  /** Everything below the moved inode resolves from it exactly as before. */
  lemma RenameKeepsSubtree(s: NS, oldDir: InodeID, oldName: string, newDir: InodeID, newName: string, at: Time, s': NS,
                           path: seq<string>)
    requires Tree(s) && Renamed(s, oldDir, oldName, newDir, newName, at, s')
    ensures var src := s.dentry[Slot(oldDir, oldName)];
            ResolveFrom(s', src, path) == ResolveFrom(s, src, path)
  {
    RenameFacts(s, oldDir, oldName, newDir, newName, at, s');
    var src := s.dentry[Slot(oldDir, oldName)];
    WithinSelf(s.dentry, src);
    ResolveBelow(s, s', src, src, path);
  }

  lemma {:induction false} ResolveConcat(s: NS, cur: InodeID, p: seq<string>, q: seq<string>)
    ensures ResolveFrom(s, cur, p + q)
            == (match ResolveFrom(s, cur, p) case Err(e) => Err(e) case Ok(x) => ResolveFrom(s, x, q))
    decreases |p|
  {
    if p == [] {
      assert p + q == q;
    } else {
      assert (p + q)[1..] == p[1..] + q;
      if p[0] == "" {
        ResolveConcat(s, cur, p[1..], q);
      } else if Slot(cur, p[0]) in s.dentry && s.dentry[Slot(cur, p[0])] in s.inode {
        ResolveConcat(s, s.dentry[Slot(cur, p[0])], p[1..], q);
      }
    }
  }

  /** For every suffix, resolving it under the new path afterwards is resolving it under the old path before. */
  lemma RenameMovesPaths(s: NS, oldDir: InodeID, oldName: string, newDir: InodeID, newName: string, at: Time, s': NS,
                         oldPath: seq<string>, newPath: seq<string>, suffix: seq<string>)
    requires Tree(s) && Renamed(s, oldDir, oldName, newDir, newName, at, s')
    requires ResolveFrom(s, ROOT, oldPath) == Ok(oldDir) && ResolveFrom(s, ROOT, newPath) == Ok(newDir)
    requires oldName != "" && newName != ""
    ensures ResolveFrom(s', ROOT, newPath + ([newName] + suffix)) == ResolveFrom(s, ROOT, oldPath + ([oldName] + suffix))
  {
    RenameFacts(s, oldDir, oldName, newDir, newName, at, s');
    var from, to := Slot(oldDir, oldName), Slot(newDir, newName);
    if to in s.dentry {
      ParentNotWithin(s, to);
    }
    ResolveKept(s, s', ROOT, newPath, newDir);
    ResolveConcat(s', ROOT, newPath, [newName] + suffix);
    ResolveConcat(s, ROOT, oldPath, [oldName] + suffix);
    assert ([newName] + suffix)[1..] == suffix && ([oldName] + suffix)[1..] == suffix;
    assert Anchored(s, from);
    RenameKeepsSubtree(s, oldDir, oldName, newDir, newName, at, s', suffix);
  }

  /**
   checkName refuses no empty component, although its comment says so, and Resolve skips one: the moved
   inode can be resolved at its new place exactly when the new name is not empty.
   */
  lemma RenameResolvableIff(s: NS, oldDir: InodeID, oldName: string, newDir: InodeID, newName: string, at: Time, s': NS)
    requires Tree(s) && Renamed(s, oldDir, oldName, newDir, newName, at, s')
    ensures ResolveFrom(s', newDir, [newName]) == Ok(s.dentry[Slot(oldDir, oldName)]) <==> newName != ""
  {
    RenameFacts(s, oldDir, oldName, newDir, newName, at, s');
    WithinSelf(s.dentry, newDir);
    assert Anchored(s, Slot(oldDir, oldName));
    assert [newName][1..] == [];
  }

  /** Routes to anything outside the moved subtree that is not the displaced inode are untouched. */
  lemma RenameKeepsOtherPaths(s: NS, oldDir: InodeID, oldName: string, newDir: InodeID, newName: string, at: Time, s': NS,
                              path: seq<string>, target: InodeID)
    requires Tree(s) && Renamed(s, oldDir, oldName, newDir, newName, at, s')
    requires ResolveFrom(s, ROOT, path) == Ok(target) && !Within(s.dentry, s.dentry[Slot(oldDir, oldName)], target)
    requires Slot(newDir, newName) in s.dentry ==> target != s.dentry[Slot(newDir, newName)]
    ensures ResolveFrom(s', ROOT, path) == Ok(target)
  {
    RenameFacts(s, oldDir, oldName, newDir, newName, at, s');
    var to := Slot(newDir, newName);
    if to in s.dentry && Within(s.dentry, s.dentry[to], target) {
      WithinLeaf(s.dentry, s.dentry[to], target);
    }
    ResolveKept(s, s', ROOT, path, target);
  }

  // --- what resolving means ----------------------------------------------------------------------

  /** The names in a path, empty components left out. */
  function Components(path: seq<string>): seq<string> {
    if path == [] then [] else (if path[0] == "" then [] else [path[0]]) + Components(path[1..])
  }

  /** Every inode on the way has a record. */
  ghost predicate Recorded(s: NS, cur: InodeID, names: seq<string>) {
    forall n :: 0 < n <= |names| ==> Walk(s.dentry, cur, names[..n]).Some? && Walk(s.dentry, cur, names[..n]).value in s.inode
  }

  lemma RecordedNext(s: NS, cur: InodeID, names: seq<string>)
    requires names != [] && Slot(cur, names[0]) in s.dentry
    ensures Recorded(s, cur, names) <==> s.dentry[Slot(cur, names[0])] in s.inode && Recorded(s, s.dentry[Slot(cur, names[0])], names[1..])
  {
    var next := s.dentry[Slot(cur, names[0])];
    forall n | 0 < n <= |names| ensures Walk(s.dentry, cur, names[..n]) == Walk(s.dentry, next, names[1..][..n - 1]) {
      assert names[..n][0] == names[0] && names[..n][1..] == names[1..][..n - 1];
    }
    if Recorded(s, cur, names) {
      assert Walk(s.dentry, cur, names[..1]).value in s.inode;
      forall n | 0 < n <= |names[1..]| ensures Walk(s.dentry, next, names[1..][..n]).Some? && Walk(s.dentry, next, names[1..][..n]).value in s.inode {
        assert Walk(s.dentry, cur, names[..n + 1]) == Walk(s.dentry, next, names[1..][..n + 1 - 1]);
      }
    }
  }

  /** A path resolves exactly to where its names lead one after the other, through inodes that have records; else nothing is found. */
  lemma {:induction false} ResolveIff(s: NS, cur: InodeID, path: seq<string>, x: InodeID)
    ensures ResolveFrom(s, cur, path) == Ok(x) <==> Walk(s.dentry, cur, Components(path)) == Some(x) && Recorded(s, cur, Components(path))
    decreases |path|
  {
    hide Recorded;
    if path == [] {
      RecordedNone(s, cur);
    } else if path[0] == "" {
      assert Components(path) == Components(path[1..]);
      ResolveIff(s, cur, path[1..], x);
    } else {
      var names := Components(path);
      assert names[0] == path[0] && names[1..] == Components(path[1..]);
      if Slot(cur, path[0]) in s.dentry {
        RecordedNext(s, cur, names);
        ResolveIff(s, s.dentry[Slot(cur, path[0])], path[1..], x);
      }
    }
  }

  lemma RecordedNone(s: NS, cur: InodeID)
    ensures Recorded(s, cur, [])
  {
  }

  lemma {:induction false} ResolveErrors(s: NS, cur: InodeID, path: seq<string>)
    ensures ResolveFrom(s, cur, path).Err? ==> ResolveFrom(s, cur, path) == Err(NotFound)
    decreases |path|
  {
    if path != [] {
      if path[0] == "" {
        ResolveErrors(s, cur, path[1..]);
      } else if Slot(cur, path[0]) in s.dentry {
        ResolveErrors(s, s.dentry[Slot(cur, path[0])], path[1..]);
      }
    }
  }
}
