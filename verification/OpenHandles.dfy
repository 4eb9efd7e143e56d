/** The registry of open descriptors that pins unlinked inodes against a sweep (pkg/repo/openhandle.go). */
module OpenHandles {
  import opened Namespace

  /** What Acquire hands back: releasing it counts once however often it is called. */
  class Release {
    const id: InodeID
    const token: nat
    var done: bool

    constructor (id: InodeID, token: nat)
      ensures this.id == id && this.token == token && !done
    {
      this.id, this.token, done := id, token, false;
    }
  }

  /** The descriptors open on one inode. */
  ghost function On(open: map<nat, InodeID>, id: InodeID): set<nat> {
    set t | t in open && open[t] == id
  }

  lemma OnAdd(open: map<nat, InodeID>, t: nat, id: InodeID, x: InodeID)
    requires t !in open
    ensures |On(open[t := id], x)| == |On(open, x)| + if x == id then 1 else 0
  {
    if x == id {
      assert On(open[t := id], x) == On(open, x) + {t};
    } else {
      assert On(open[t := id], x) == On(open, x);
    }
  }

  lemma OnRemove(open: map<nat, InodeID>, t: nat, x: InodeID)
    requires t in open
    ensures |On(open, x)| == |On(open - {t}, x)| + if x == open[t] then 1 else 0
  {
    assert (open - {t})[t := open[t]] == open;
    OnAdd(open - {t}, t, open[t], x);
  }

  class OpenHandles {
    var n: map<InodeID, nat>
    /** Every descriptor not yet released, by token. */
    ghost var open: map<nat, InodeID>
    var next: nat

    ghost predicate Valid()
      reads this
    {
      && (forall id :: id in n ==> n[id] > 0)
      && (forall id: InodeID :: |On(open, id)| == if id in n then n[id] else 0)
      && (forall t :: t in open ==> t < next)
    }

    /** A release handed out by this registry that is still to count, or has counted. */
    ghost predicate Issued(h: Release)
      reads this, h
    {
      h.token < next && if h.done then h.token !in open else h.token in open && open[h.token] == h.id
    }

    constructor ()
      ensures Valid() && open == map[]
    {
      n, open, next := map[], map[], 0;
    }

    method Acquire(id: InodeID) returns (h: Release)
      requires Valid()
      modifies this
      ensures Valid() && fresh(h) && h.id == id && h.token == old(next) && Issued(h)
      ensures open == old(open)[h.token := id]
    {
      h := new Release(id, next);
      forall x: InodeID { OnAdd(open, next, id, x); }
      n := n[id := 1 + if id in n then n[id] else 0];
      open := open[next := id];
      next := next + 1;
    }

    /** Only this descriptor goes, and only once. */
    method Close(h: Release)
      requires Valid() && Issued(h)
      modifies this, h
      ensures Valid() && Issued(h) && h.done && next == old(next)
      ensures open == old(open) - {h.token}
    {
      if h.done {
        assert open == open - {h.token};
        return;
      }
      h.done := true;
      forall x: InodeID { OnRemove(open, h.token, x); }
      if h.id !in n || n[h.id] <= 1 {
        n := n - {h.id};
      } else {
        n := n[h.id := n[h.id] - 1];
      }
      open := open - {h.token};
    }

    method Held(id: InodeID) returns (held: bool)
      requires Valid()
      ensures held <==> exists t :: t in open && open[t] == id
    {
      held := id in n && n[id] > 0;
      SomeOn(open, id);
    }

    /** Exactly the inodes some descriptor is open on. */
    method Snapshot() returns (held: set<InodeID>)
      requires Valid()
      ensures forall id: InodeID :: id in held <==> exists t :: t in open && open[t] == id
    {
      held := {};
      var todo := n.Keys;
      while todo != {}
        invariant todo <= n.Keys && held == n.Keys - todo
        decreases |todo|
      {
        var id :| id in todo;
        if n[id] > 0 {
          held := held + {id};
        }
        todo := todo - {id};
      }
      forall id: InodeID { SomeOn(open, id); }
    }
  }

  lemma SomeOn(open: map<nat, InodeID>, id: InodeID)
    ensures |On(open, id)| > 0 <==> exists t :: t in open && open[t] == id
  {
    if |On(open, id)| > 0 {
      var t :| t in On(open, id);
    }
    if exists t :: t in open && open[t] == id {
      var t :| t in open && open[t] == id;
      assert t in On(open, id);
    }
  }
}
