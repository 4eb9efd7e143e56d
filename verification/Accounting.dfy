/**
 Link counts, the graveyard and the quota. The transactions are related to a small accounting machine that
 keeps only what the counts are about; the invariants are proved there.
 */
module Accounting {
  import opened Base
  import opened Namespace
  import opened TreeShape

  datatype Book = Book(dentry: Dentries, vitals: map<InodeID, Vital>, graves: set<Grave>, quota: Quota, next: nat)

  ghost function BookOf(s: NS): Book {
    Book(s.dentry, VitalsOf(s.inode), s.graves, s.quota, s.next)
  }

  /** The dentries naming `id`. */
  ghost function Names(d: Dentries, id: InodeID): set<Slot> {
    set k | k in d && d[k] == id
  }

  ghost predicate Graved(graves: set<Grave>, id: InodeID) {
    exists g :: g in graves && g.id == id
  }

  /** The inodes charged to the quota: the ones with a name. */
  ghost function Charged(b: Book): set<InodeID> {
    set id | id in b.vitals && id != ROOT && Named(b.dentry, id)
  }

  ghost function SumSizes(v: map<InodeID, Vital>, ids: set<InodeID>): int
    requires ids <= v.Keys
  {
    if ids == {} then 0 else
      var x :| x in ids;
      v[x].size + SumSizes(v, ids - {x})
  }

  // --- the invariant ----------------------------------------------------------

  ghost predicate Bound(b: Book) {
    forall k :: k in b.dentry ==> b.dentry[k] in b.vitals && b.dentry[k] != ROOT
  }

  /** A file's link count is the number of dentries naming it; a directory has at most one. */
  ghost predicate Counted(b: Book) {
    forall id :: id in b.vitals ==>
                   if b.vitals[id].isDir then |Names(b.dentry, id)| <= 1 else b.vitals[id].links == |Names(b.dentry, id)|
  }

  /** An inode is in the graveyard exactly when it has no name left. */
  ghost predicate Buried(b: Book) {
    forall id :: id in b.vitals && id != ROOT ==> (Graved(b.graves, id) <==> !Named(b.dentry, id))
  }

  ghost predicate BuriedOnce(graves: set<Grave>) {
    forall g, g' :: g in graves && g' in graves && g.id == g'.id ==> g == g'
  }

  ghost predicate Allocated(b: Book) {
    && ROOT in b.vitals && ROOT <= b.next
    && (forall id :: id in b.vitals ==> id <= b.next)
    && (forall g :: g in b.graves ==> g.id != ROOT && g.id <= b.next)
  }

  /** Usage is the total size and the number of the named inodes. */
  ghost predicate Exact(b: Book) {
    b.quota.bytesUsed == SumSizes(b.vitals, Charged(b)) && b.quota.inodesUsed == |Charged(b)|
  }

  ghost predicate Balanced(b: Book) {
    Bound(b) && Counted(b) && Buried(b) && BuriedOnce(b.graves) && Allocated(b) && Exact(b)
  }

  // --- sums --------------------------------------------------------------------

  lemma {:induction false} SumRemove(v: map<InodeID, Vital>, ids: set<InodeID>, x: InodeID)
    requires ids <= v.Keys && x in ids
    ensures SumSizes(v, ids) == v[x].size + SumSizes(v, ids - {x})
    decreases ids
  {
    var y :| y in ids && SumSizes(v, ids) == v[y].size + SumSizes(v, ids - {y});
    if y != x {
      SumRemove(v, ids - {y}, x);
      SumRemove(v, ids - {x}, y);
      assert ids - {y} - {x} == ids - {x} - {y};
    }
  }

  lemma {:induction false} SumAgrees(v: map<InodeID, Vital>, v': map<InodeID, Vital>, ids: set<InodeID>)
    requires ids <= v.Keys && ids <= v'.Keys
    requires forall x :: x in ids ==> v[x].size == v'[x].size
    ensures SumSizes(v, ids) == SumSizes(v', ids)
    decreases ids
  {
    if ids != {} {
      var x :| x in ids;
      SumRemove(v, ids, x);
      SumRemove(v', ids, x);
      SumAgrees(v, v', ids - {x});
    }
  }

  lemma {:induction false} SumNonNegative(v: map<InodeID, Vital>, ids: set<InodeID>)
    requires ids <= v.Keys
    ensures SumSizes(v, ids) >= 0
    decreases ids
  {
    if ids != {} {
      var x :| x in ids;
      SumRemove(v, ids, x);
      SumNonNegative(v, ids - {x});
    }
  }

  /** The same inodes are named, at the same sizes. */
  lemma SameCharges(b: Book, b': Book)
    requires Exact(b) && b'.vitals.Keys == b.vitals.Keys && b'.quota == b.quota
    requires forall x :: x in b.vitals ==> b'.vitals[x].size == b.vitals[x].size
    requires forall x :: Named(b'.dentry, x) <==> Named(b.dentry, x)
    ensures Exact(b')
  {
    assert Charged(b') == Charged(b);
    SumAgrees(b.vitals, b'.vitals, Charged(b));
  }

  // --- the accounting machine ----------------------------------------------------

  /** A fresh inode appears under a free name. */
  function Create(b: Book, k: Slot, isDir: bool, size: nat): Book {
    var id := b.next + 1;
    Book(b.dentry[k := id], b.vitals[id := Vital(isDir, size, if isDir then 0 else 1)], b.graves,
         b.quota.(bytesUsed := b.quota.bytesUsed + size, inodesUsed := b.quota.inodesUsed + 1), id)
  }

  /** Another name for a file. */
  function Bind(b: Book, k: Slot, id: InodeID): Book
    requires id in b.vitals
  {
    b.(dentry := b.dentry[k := id], vitals := b.vitals[id := b.vitals[id].(links := b.vitals[id].links + 1)])
  }

  /** The bookkeeping of one lost reference; the dentry is dealt with by the caller. */
  function Release(b: Book, id: InodeID, at: Time): Book
    requires id in b.vitals
  {
    var v := b.vitals[id];
    if !v.isDir && v.links > 1 then b.(vitals := b.vitals[id := v.(links := v.links - 1)])
    else b.(vitals := b.vitals[id := v.(links := 0)], graves := b.graves + {Grave(at, id)},
            quota := b.quota.(bytesUsed := AddDelta(b.quota.bytesUsed, 0 - v.size),
                              inodesUsed := AddDelta(b.quota.inodesUsed, -1)))
  }

  /** A name goes. */
  function Unbind(b: Book, k: Slot, at: Time): Book
    requires k in b.dentry && b.dentry[k] in b.vitals
  {
    Release(b, b.dentry[k], at).(dentry := b.dentry - {k})
  }

  /** A name moves to a free slot. */
  function Move(b: Book, from: Slot, to: Slot): Book
    requires from in b.dentry
  {
    b.(dentry := (b.dentry - {from})[to := b.dentry[from]])
  }

  /** A named file is overwritten with content of another size. */
  function Resize(b: Book, id: InodeID, size: nat): Book
    requires id in b.vitals
  {
    b.(vitals := b.vitals[id := b.vitals[id].(size := size)],
       quota := b.quota.(bytesUsed := AddDelta(b.quota.bytesUsed, size - b.vitals[id].size)))
  }

  lemma CreateFreshHasNoNames(b: Book)
    requires Balanced(b)
    ensures b.next + 1 !in b.vitals && Names(b.dentry, b.next + 1) == {} && !Graved(b.graves, b.next + 1)
    ensures !Named(b.dentry, b.next + 1)
  {
  }

  lemma CreateNames(b: Book, k: Slot, isDir: bool, size: nat, x: InodeID)
    requires Balanced(b) && k !in b.dentry
    ensures var d' := Create(b, k, isDir, size).dentry;
            && Names(d', x) == (if x == b.next + 1 then {k} else Names(b.dentry, x))
            && (Named(d', x) <==> x == b.next + 1 || Named(b.dentry, x))
  {
    var d' := Create(b, k, isDir, size).dentry;
    CreateFreshHasNoNames(b);
    assert d'[k] == b.next + 1;
    if Named(b.dentry, x) {
      var j :| j in b.dentry && b.dentry[j] == x;
      assert d'[j] == x;
    }
  }

  lemma CreateCharges(b: Book, k: Slot, isDir: bool, size: nat)
    requires Balanced(b) && k !in b.dentry
    ensures Charged(Create(b, k, isDir, size)) == Charged(b) + {b.next + 1}
  {
    var b' := Create(b, k, isDir, size);
    forall x ensures Named(b'.dentry, x) <==> x == b.next + 1 || Named(b.dentry, x) {
      CreateNames(b, k, isDir, size, x);
    }
  }

  lemma CreateExact(b: Book, k: Slot, isDir: bool, size: nat)
    requires Balanced(b) && k !in b.dentry
    ensures Exact(Create(b, k, isDir, size))
  {
    var id := b.next + 1;
    var b' := Create(b, k, isDir, size);
    CreateCharges(b, k, isDir, size);
    SumRemove(b'.vitals, Charged(b'), id);
    assert Charged(b') - {id} == Charged(b);
    SumAgrees(b.vitals, b'.vitals, Charged(b));
  }

  lemma CreateBalanced(b: Book, k: Slot, isDir: bool, size: nat)
    requires Balanced(b) && k !in b.dentry
    ensures Balanced(Create(b, k, isDir, size))
  {
    hide Exact, SumSizes, Charged;
    CreateFreshHasNoNames(b);
    forall x ensures var d' := Create(b, k, isDir, size).dentry;
                     && Names(d', x) == (if x == b.next + 1 then {k} else Names(b.dentry, x))
                     && (Named(d', x) <==> x == b.next + 1 || Named(b.dentry, x))
    {
      CreateNames(b, k, isDir, size, x);
    }
    CreateExact(b, k, isDir, size);
  }

  lemma BindNames(b: Book, k: Slot, id: InodeID, x: InodeID)
    requires k !in b.dentry && Named(b.dentry, id)
    ensures var d' := b.dentry[k := id];
            && Names(d', x) == (if x == id then Names(b.dentry, x) + {k} else Names(b.dentry, x))
            && (Named(d', x) <==> Named(b.dentry, x))
  {
    var d' := b.dentry[k := id];
    if Named(b.dentry, x) {
      var j :| j in b.dentry && b.dentry[j] == x;
      assert d'[j] == x;
    }
  }

  lemma BindBalanced(b: Book, k: Slot, id: InodeID)
    requires Balanced(b) && k !in b.dentry && id in b.vitals && !b.vitals[id].isDir && Named(b.dentry, id)
    ensures Balanced(Bind(b, k, id))
  {
    hide Exact, SumSizes, Charged;
    var b' := Bind(b, k, id);
    forall x ensures && Names(b'.dentry, x) == (if x == id then Names(b.dentry, x) + {k} else Names(b.dentry, x))
                     && (Named(b'.dentry, x) <==> Named(b.dentry, x))
    {
      BindNames(b, k, id, x);
    }
    SameCharges(b, b');
  }

  lemma NamesOfUnbound(b: Book, k: Slot, x: InodeID)
    requires Balanced(b) && k in b.dentry
    ensures Names(b.dentry - {k}, x) == Names(b.dentry, x) - {k}
    ensures Named(b.dentry - {k}, x) <==> Names(b.dentry, x) - {k} != {}
  {
    var d' := b.dentry - {k};
    assert Names(d', x) == Names(b.dentry, x) - {k};
    if Names(d', x) != {} {
      var j :| j in Names(d', x);
      assert d'[j] == x;
    }
    if Named(d', x) {
      var j :| j in d' && d'[j] == x;
      assert j in Names(d', x);
    }
  }

  /** The name was the last one exactly when the count, or being a directory, says so. */
  lemma LastName(b: Book, k: Slot)
    requires Balanced(b) && k in b.dentry
    ensures var id := b.dentry[k];
            Names(b.dentry, id) == {k} <==> b.vitals[id].isDir || b.vitals[id].links <= 1
  {
    var id := b.dentry[k];
    var names := Names(b.dentry, id);
    assert k in names;
    assert |names - {k}| == |names| - 1;
  }

  lemma UnbindOthers(b: Book, k: Slot, x: InodeID)
    requires Balanced(b) && k in b.dentry && x != b.dentry[k]
    ensures Names(b.dentry - {k}, x) == Names(b.dentry, x)
    ensures Named(b.dentry - {k}, x) <==> Named(b.dentry, x)
  {
    NamesOfUnbound(b, k, x);
    assert k !in Names(b.dentry, x);
    if Named(b.dentry, x) {
      var j :| j in b.dentry && b.dentry[j] == x;
      assert j in Names(b.dentry, x);
    }
  }

  lemma UnbindOneOfMany(b: Book, k: Slot, at: Time)
    requires Balanced(b) && k in b.dentry && !b.vitals[b.dentry[k]].isDir && b.vitals[b.dentry[k]].links > 1
    ensures Balanced(Unbind(b, k, at))
  {
    hide SumSizes, Charged, Exact;
    var id := b.dentry[k];
    var b' := Unbind(b, k, at);
    LastName(b, k);
    NamesOfUnbound(b, k, id);
    forall x | x != id ensures Names(b'.dentry, x) == Names(b.dentry, x) && (Named(b'.dentry, x) <==> Named(b.dentry, x)) {
      UnbindOthers(b, k, x);
    }
    assert k in Names(b.dentry, id) && b.dentry[k] == id;
    assert Names(b'.dentry, id) == Names(b.dentry, id) - {k} && Names(b'.dentry, id) != {};
    SameCharges(b, b');
  }

  /** Losing the last name returns exactly what the inode was charged: the clamp does not fire. */
  lemma UnbindLast(b: Book, k: Slot, at: Time)
    requires Balanced(b) && k in b.dentry && (b.vitals[b.dentry[k]].isDir || b.vitals[b.dentry[k]].links <= 1)
    ensures Exact(Unbind(b, k, at))
    ensures Unbind(b, k, at).quota.bytesUsed == b.quota.bytesUsed - b.vitals[b.dentry[k]].size
    ensures Unbind(b, k, at).quota.inodesUsed == b.quota.inodesUsed - 1
  {
    var id := b.dentry[k];
    var b' := Unbind(b, k, at);
    LastName(b, k);
    NamesOfUnbound(b, k, id);
    forall x | x != id ensures Named(b'.dentry, x) <==> Named(b.dentry, x) {
      UnbindOthers(b, k, x);
    }
    assert Named(b.dentry, id);
    assert Charged(b') == Charged(b) - {id};
    assert id in Charged(b);
    SumRemove(b.vitals, Charged(b), id);
    SumNonNegative(b.vitals, Charged(b) - {id});
    SumAgrees(b.vitals, b'.vitals, Charged(b'));
  }

  lemma UnbindLastBuried(b: Book, k: Slot, at: Time)
    requires Balanced(b) && k in b.dentry && (b.vitals[b.dentry[k]].isDir || b.vitals[b.dentry[k]].links <= 1)
    ensures Buried(Unbind(b, k, at)) && BuriedOnce(Unbind(b, k, at).graves) && Counted(Unbind(b, k, at))
  {
    hide Exact, SumSizes, Charged, Allocated;
    var id := b.dentry[k];
    var b' := Unbind(b, k, at);
    LastName(b, k);
    NamesOfUnbound(b, k, id);
    forall x | x != id ensures Names(b'.dentry, x) == Names(b.dentry, x) && (Named(b'.dentry, x) <==> Named(b.dentry, x)) {
      UnbindOthers(b, k, x);
    }
    assert Named(b.dentry, id) && !Named(b'.dentry, id) && Grave(at, id) in b'.graves;
    forall x | x in b'.vitals && x != ROOT && x != id ensures Graved(b'.graves, x) <==> Graved(b.graves, x) {
      if Graved(b.graves, x) {
        var g :| g in b.graves && g.id == x;
        assert g in b'.graves;
      }
    }
  }

  lemma UnbindBalanced(b: Book, k: Slot, at: Time)
    requires Balanced(b) && k in b.dentry
    ensures Balanced(Unbind(b, k, at))
  {
    if b.vitals[b.dentry[k]].isDir || b.vitals[b.dentry[k]].links <= 1 {
      UnbindLast(b, k, at);
      UnbindLastBuried(b, k, at);
    } else {
      UnbindOneOfMany(b, k, at);
    }
  }

  lemma CardSwap<T>(s: set<T>, x: T, y: T)
    requires x in s && y !in s
    ensures |s - {x} + {y}| == |s|
  {
  }

  lemma MoveNames(b: Book, from: Slot, to: Slot, x: InodeID)
    requires from in b.dentry && to !in b.dentry
    ensures var d' := Move(b, from, to).dentry;
            |Names(d', x)| == |Names(b.dentry, x)| && (Named(d', x) <==> Named(b.dentry, x))
  {
    var d' := Move(b, from, to).dentry;
    if x == b.dentry[from] {
      assert Names(d', x) == Names(b.dentry, x) - {from} + {to};
      CardSwap(Names(b.dentry, x), from, to);
      assert d'[to] == x;
    } else {
      MoveOtherNames(b, from, to, x);
    }
  }

  lemma MoveOtherNames(b: Book, from: Slot, to: Slot, x: InodeID)
    requires from in b.dentry && to !in b.dentry && x != b.dentry[from]
    ensures var d' := Move(b, from, to).dentry;
            Names(d', x) == Names(b.dentry, x) && (Named(d', x) <==> Named(b.dentry, x))
  {
    var d' := Move(b, from, to).dentry;
    if Named(b.dentry, x) {
      var j :| j in b.dentry && b.dentry[j] == x;
      assert d'[j] == x;
    }
  }

  lemma MoveBalanced(b: Book, from: Slot, to: Slot)
    requires Balanced(b) && from in b.dentry && to !in b.dentry
    ensures Balanced(Move(b, from, to))
  {
    var b' := Move(b, from, to);
    forall x ensures |Names(b'.dentry, x)| == |Names(b.dentry, x)| && (Named(b'.dentry, x) <==> Named(b.dentry, x)) {
      MoveNames(b, from, to, x);
    }
    SameCharges(b, b');
  }

  lemma ResizeBalanced(b: Book, id: InodeID, size: nat)
    requires Balanced(b) && Named(b.dentry, id) && id in b.vitals && !b.vitals[id].isDir
    ensures Balanced(Resize(b, id, size))
    ensures Resize(b, id, size).quota.bytesUsed == b.quota.bytesUsed + size - b.vitals[id].size
  {
    var b' := Resize(b, id, size);
    assert Charged(b') == Charged(b) && id in Charged(b);
    SumRemove(b.vitals, Charged(b), id);
    SumRemove(b'.vitals, Charged(b), id);
    SumNonNegative(b.vitals, Charged(b) - {id});
    SumAgrees(b.vitals, b'.vitals, Charged(b) - {id});
  }

  /** The content of an inode without a name changes: nothing is charged for it. */
  lemma DetachedBalanced(b: Book, id: InodeID, size: nat)
    requires Balanced(b) && id in b.vitals && (!Named(b.dentry, id) || id == ROOT)
    ensures Balanced(b.(vitals := b.vitals[id := b.vitals[id].(size := size)]))
  {
    var b' := b.(vitals := b.vitals[id := b.vitals[id].(size := size)]);
    assert Charged(b') == Charged(b) && id !in Charged(b);
    SumAgrees(b.vitals, b'.vitals, Charged(b));
  }

  lemma ReclaimBalanced(b: Book, id: InodeID)
    requires Balanced(b) && id in b.vitals && id != ROOT && !Named(b.dentry, id)
    ensures Balanced(b.(vitals := b.vitals - {id}))
  {
    var b' := b.(vitals := b.vitals - {id});
    assert Charged(b') == Charged(b);
    SumAgrees(b.vitals, b'.vitals, Charged(b));
  }

  lemma ForgetBalanced(b: Book, g: Grave)
    requires Balanced(b) && g.id !in b.vitals
    ensures Balanced(b.(graves := b.graves - {g}))
  {
    var b' := b.(graves := b.graves - {g});
    forall id | id in b.vitals && Graved(b.graves, id) ensures Graved(b'.graves, id) {
      var h :| h in b.graves && h.id == id;
      assert h in b'.graves;
    }
    SameCharges(b, b');
  }
}
